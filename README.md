# Postgraduate records back end, modelled in Dafny

This project models the core of a Laravel back end that keeps a university
postgraduate school's records. It covers these parts:

- **Academic terms (gestiones).** Creating, updating, activating and deleting a term keeps at most one term current (`es_actual`). The term forms are validated, including the overlap and date-reduction checks.
- **Spreadsheet import.** A spreadsheet of academic rows is imported into the program, teacher, academic-record, certificate and thesis tables. The import keeps its counters and error list. The upload batch (`CargaExcel`) moves through its states around the import.
- **Records.** Certificates and theses are created, edited, issued or approved, and deleted. Numbers are given out per year, and the average of two grades is computed. The request classes of certificates, theses, teachers and programs are modelled as validity predicates.
- **Reports and screens.** The academic-records index and the student summary. The five reports and their filter data. The dashboard: its colour and month lookups, the whole-number statistics, the landing page, and the merged recent activity.
- **Visit counter.** The middleware that counts page visits per route.
- **Seeder.** The seeder that creates the permissions, roles and default users. Running it twice has the same effect as running it once.

How the source is represented:

- **Tables** are sequences of rows in insertion order.
- **Objects updated in place** are classes: the term service, the tables the import writes, the batch table, the visit table, and the seeder's database. Their methods are proved against specification functions.
- **Queries** (`where`, `first`, `count`, `orderBy`, `take`, `distinct`) are functions in module `Consultas` and module `Ordenamiento`.
- **Dates** are calendar triples. Their overflow follows PHP's `DateTime`.
- **Grades** are whole hundredths.
- **Inputs from outside.** The current term held in the cache, today's date, creation timestamps, the spreadsheet's rows, and any exception a storage step throws are all inputs.

## Model

| member | source | states |
|---|---|---|
| Gestiones.DesactivarTodas | app/Services/GestionService.php:219-222 | no row is the current term afterwards, and every other column of every row is as it was |
| Gestiones.DesactivarExcepto | app/Services/GestionService.php:230-235 | only the row `id` can still be current, that row is untouched, and no other column of any row changes |
| Gestiones.Crear | app/Services/GestionService.php:23-34 | the new row is appended; when `es_actual ?? false` holds it is current and no earlier row is, otherwise the earlier rows are unchanged and the new row is not current; at most one current term is kept |
| Gestiones.Actualizar | app/Services/GestionService.php:43-56 | the row `id` receives every key present in the update; with `es_actual` true every other row loses the flag and keeps all else, with it false or absent no other row changes |
| Gestiones.Activar | app/Services/GestionService.php:64-78 | the corrected activation: the term becomes current and 'activo', every other term stops being current, nothing else changes |
| Gestiones.Eliminar | app/Services/GestionService.php:99 | the table keeps exactly the rows whose id is not `id` |
| Gestiones.Actual | app/Services/GestionService.php:107-110 | no term is found exactly when no row is current; a found term is a current row of the table |
| Gestiones.ActualEsLaUnica | app/Services/GestionService.php:107-110 | with at most one current row, `first()` returns that row wherever it is |
| Gestiones.CrearDejaActual | app/Services/GestionService.php:23-34 | after a create there is a current term when there was one before or the new one is marked current |
| Gestiones.ActualizarConserva | app/Services/GestionService.php:43-56 | an update keeps at most one current term |
| Gestiones.ActivarDejaSoloEsa | app/Services/GestionService.php:64-78 | after the corrected activation at most one term is current and `obtenerGestionActual` returns the activated one |
| Gestiones.ActivarComoEscritoPierdeActual | app/Services/GestionService.php:64-78 | activating, as written, the term that is already current leaves no current term at all |
| Gestiones.EliminarConserva | app/Services/GestionService.php:87-100 | a delete keeps at most one current term |
| Gestiones.EliminarConservaIds | app/Services/GestionService.php:99 | a delete keeps the primary keys unique |
| Gestiones.ActivasMasInactivas | app/Services/GestionService.php:207-208 | the 'activo' and the 'inactivo' counts add up to the number of terms |
| Gestiones.Contar | app/Services/GestionService.php:209-210 | a term's related-row count is zero exactly when no row points at it, and at most the size of the table |
| Gestiones.ResumenDe | app/Services/GestionService.php:200-212 | the number of terms; the 'activo' and 'inactivo' counts, which add up to it; the current term as `obtenerGestionActual` finds it; and, with unique keys, the teacher and program totals as the number of teachers and programs that belong to some term |
| Gestiones.SumaEsPertenecen | app/Services/GestionService.php:202-210 | with unique term keys, summing each term's `withCount` of related rows counts each related row that belongs to some term exactly once |
| Gestiones.Filtrar | app/Services/GestionService.php:137-156 | a term is kept exactly when it matches every non-empty filter: the text in its name or description, the estado, the name starting with "<year>-" |
| Gestiones.VaAntesEsOrden | app/Services/GestionService.php:162-163 | `es_actual DESC, fecha_inicio DESC` is a total, transitive order |
| Gestiones.BuscarEsCorrecto | app/Services/GestionService.php:135-165 | the search returns exactly the matching terms, ordered by that key, with a matching current term first |
| Gestiones.ServicioGestiones.DesactivarTodasLasGestiones | app/Services/GestionService.php:219-222 | the loop leaves the table equal to `DesactivarTodas` of the old one and keeps unique ids |
| Gestiones.ServicioGestiones.DesactivarTodasLasGestionesExcepto | app/Services/GestionService.php:230-235 | the loop leaves the table equal to `DesactivarExcepto` of the old one |
| Gestiones.ServicioGestiones.CrearGestion | app/Services/GestionService.php:23-34 | the table becomes `Crear` of the old one with the next primary key, and the returned row is the inserted one |
| Gestiones.ServicioGestiones.ActualizarGestion | app/Services/GestionService.php:43-56 | the table becomes `Actualizar` of the old one, and the returned row is the fresh row `id` |
| Gestiones.ServicioGestiones.ActivarGestion | app/Services/GestionService.php:64-78 | the table becomes `Activar` of the old one, and the returned row is current and 'activo' (as intended; as written: see ## Findings) |
| Gestiones.ServicioGestiones.EliminarGestion | app/Services/GestionService.php:87-100 | succeeds exactly when the term is neither current nor has teachers or programs, and then removes that row; otherwise it changes nothing and names the cause: the current-term message exactly when the term is current, the has-data message exactly when it is not current but has teachers or programs |
| Gestiones.ServicioGestiones.PuedeEliminar | app/Services/GestionService.php:173-193 | deletable exactly when there are no reasons; one reason per failed condition, the current-term reason first |
| Gestiones.ServicioGestiones.ObtenerGestionActual | app/Services/GestionService.php:107-110 | the loop returns the first current row, as `Actual` defines it |
| GestionControlador.MensajeDiceSiEsActual | app/Http/Controllers/GestionController.php:134-136 | the success message for a current term differs from the one for a term that is not current |
| GestionControlador.Store | app/Http/Controllers/GestionController.php:117-141 | with no current term the row is created as current and 'activo', otherwise from the validated input unchanged; the table then has exactly one way to find a current term, keeps at most one, and the message names whether the new term is current |
| GestionControlador.Destroy | app/Http/Controllers/GestionController.php:263-279 | succeeds exactly when the term is deletable and then removes it; a refusal leaves the table as it was and reports the current-term message exactly when the term is current, the has-data message exactly when it is not current but has teachers or programs |
| GestionControlador.ActivarGestion | app/Http/Controllers/GestionController.php:290-306 | the table becomes the activation of the term, which is then the only current term (as intended; as written: see ## Findings) |
| GestionControlador.EstadosDisponibles | app/Http/Controllers/GestionController.php:313-319 | two options, 'activo' then 'inactivo', one for every state a term can have |
| GestionControlador.Anio | app/Http/Controllers/GestionController.php:331 | the first four characters of the name, or the whole name when it is shorter |
| GestionControlador.InsertarDesc | app/Http/Controllers/GestionController.php:332-333 | the list gains the value and loses nothing |
| GestionControlador.InsertarDescOrdena | app/Http/Controllers/GestionController.php:332-333 | inserting keeps the list strictly descending |
| GestionControlador.AniosDisponibles | app/Http/Controllers/GestionController.php:328-343 | the years are strictly descending (so distinct), and a value is listed exactly when it is the non-empty first four characters of some term name |
| SolicitudesGestion.Preparar | app/Http/Requests/StoreGestionRequest.php:119-134 | only the fields sent are touched: `nombre` trimmed, `es_actual` made a boolean, every other field as sent |
| SolicitudesGestion.PrepararIdempotente | app/Http/Requests/UpdateGestionRequest.php:130-145 | preparing an already prepared request changes nothing |
| SolicitudesGestion.ErroresNombre | app/Http/Requests/StoreGestionRequest.php:32-39 | no error exactly when the name is present, at most 255 characters, not taken by another term, and four digits, '-', then I or II |
| SolicitudesGestion.ErroresDescripcion | app/Http/Requests/StoreGestionRequest.php:42-46 | no error exactly when the description is absent, null or at most 500 characters |
| SolicitudesGestion.ErroresInicio | app/Http/Requests/StoreGestionRequest.php:49-53 | no error exactly when the start date is present, a date, and not before the earliest allowed day |
| SolicitudesGestion.ErroresFin | app/Http/Requests/StoreGestionRequest.php:56-61 | no error exactly when the end date is present, a date, strictly after a readable start date, and not after the latest allowed day |
| SolicitudesGestion.ErroresEstado | app/Http/Requests/StoreGestionRequest.php:64-67 | no error exactly when the estado is 'activo' or 'inactivo' |
| SolicitudesGestion.ReglasSinErrores | app/Http/Requests/UpdateGestionRequest.php:33-82 | the rule table reports nothing exactly when the request meets every rule, with the create or the edit windows and uniqueness |
| SolicitudesGestion.SolapaEsInterseccion | app/Http/Requests/StoreGestionRequest.php:160-167 | for well-formed periods the three conditions of the query say exactly that the closed intervals intersect |
| SolicitudesGestion.BuscarSolapamiento | app/Http/Requests/UpdateGestionRequest.php:177-185 | the scan finds an overlap exactly when some considered term (every term, or every other term on edit) intersects the dates |
| SolicitudesGestion.ValidarSolapamiento | app/Http/Requests/StoreGestionRequest.php:140-175 | with an error on either date field the errors are unchanged; otherwise one overlap error on `fecha_inicio` is added exactly when some considered term overlaps |
| SolicitudesGestion.ReduccionComoEscritaEs | app/Http/Requests/UpdateGestionRequest.php:217-223 | on date texts the check as written fires on any change unless the end date moves strictly later or the start date moves later |
| SolicitudesGestion.ExtensionRechazadaComoEscrita | app/Http/Requests/UpdateGestionRequest.php:222-223 | a concrete pure extension (start moved earlier, end unchanged) is rejected as written and accepted as intended |
| SolicitudesGestion.ReduccionSoloAlAcortar | app/Http/Requests/UpdateGestionRequest.php:220-223 | as intended, extending either end is never a reduction and moving either end inwards always is |
| SolicitudesGestion.ValidarGestionActual | app/Http/Requests/UpdateGestionRequest.php:200-231 | adds the deactivation error exactly when the current term is set 'inactivo', and the reduction error exactly when a term with data is shortened; existing errors are kept (as intended; as written: see ## Findings) |
| SolicitudesGestion.ValidarCreacion | app/Http/Requests/StoreGestionRequest.php:28-175 | accepted exactly when the prepared request meets the rule table and overlaps no term; the accepted data is the prepared request |
| SolicitudesGestion.ValidarEdicion | app/Http/Requests/UpdateGestionRequest.php:33-231 | accepted exactly when the prepared request meets the rule table, overlaps no other term, does not deactivate the current term and does not shorten a term with data; deactivating the current term is always rejected (as intended; as written: see ## Findings) |
| ComparacionFechas.OrdenYmd | app/Http/Requests/UpdateGestionRequest.php:222-223 | for years 0 to 9999 the 'Y-m-d' text of a date is smaller exactly when the date is earlier |
| ComparacionFechas.IgualYmd | app/Http/Requests/UpdateGestionRequest.php:217-218 | two such dates have the same 'Y-m-d' text exactly when they are the same date, so `!==` detects a changed date |
| ComparacionFechas.MayorQueCarbon | app/Http/Requests/UpdateGestionRequest.php:222 | a 'Y-m-d' text compares greater than a stored date exactly when its day is later |
| ComparacionFechas.MenorQueCarbon | app/Http/Requests/UpdateGestionRequest.php:223 | a 'Y-m-d' text compares smaller than a stored date when its day is earlier and also when it is the same day |
| Texto.Minusculas | app/Imports/DatosAcademicosImport.php:41 | `strtolower`: same length, each ASCII capital lowered, every other character kept |
| Texto.Recortar | app/Http/Requests/StoreGestionRequest.php:124 | `trim`: the text without its leading and trailing blanks, and nothing more removed |
| Texto.RecortarIdempotente | app/Http/Requests/StoreGestionRequest.php:122-126 | trimming a trimmed name changes nothing |
| Texto.RellenarIzq | app/Models/Certificacion.php:130 | `str_pad(…, STR_PAD_LEFT)`: the text ends the result, preceded by pad characters up to the width; a wider text is unchanged |
| Texto.LeerRelleno | app/Models/Certificacion.php:130 | a zero-padded count reads back as the count |
| Texto.RellenoInyectivo | app/Models/Tesis.php:125 | different counts give different padded texts |
| Texto.LeerMostrar | app/Models/Certificacion.php:128-130 | the decimal text of a number reads back as the number |
| Fechas.SumarAnios | app/Http/Requests/StoreGestionRequest.php:52 | `subYears`/`addYears`: the same month and day `n` years away, 29 February becoming 1 March in a common year; always a calendar date |
| Fechas.Normalizar | app/Imports/DatosAcademicosImport.php:191 | the date built from raw fields is a calendar date, and equals the fields when they already are one |
| Fechas.AntesEsLexicografico | app/Http/Requests/StoreGestionRequest.php:52-60 | on calendar dates, earlier means smaller year, then month, then day |
| Fechas.OrdinalInyectivo | app/Http/Requests/StoreGestionRequest.php:160-167 | two calendar dates on the same day are the same date |
| LecturaFechas.DesdeFormato | app/Imports/DatosAcademicosImport.php:191-192 | `createFromFormat` yields only calendar dates; leftover text fails, and so does a numeric field that does not start with a digit |
| LecturaFechas.LeerYmd | app/Imports/DatosAcademicosImport.php:188-194 | a date written 'Y-m-d' is read back by the first format as the same date |
| LecturaFechas.LeerDmy | app/Imports/DatosAcademicosImport.php:188-194 | a date written 'd/m/Y' fails 'Y-m-d' and is read back by 'd/m/Y' as the same date |
| LecturaFechas.DesdeYmd | app/Imports/DatosAcademicosImport.php:191 | four, two and two digits joined by '-' read as the date of those numbers |
| LecturaFechas.DesdeDmy | app/Imports/DatosAcademicosImport.php:191 | two, two and four digits joined by '/' read as the date of those numbers |
| LecturaFechas.YmdRechazaDmy | app/Imports/DatosAcademicosImport.php:190-195 | 'Y-m-d' fails on a text that starts with two digits and a slash, so the next format is tried |
| Reglas.LeerFecha | app/Http/Requests/StoreGestionRequest.php:51 | `date`: whatever a field is read as is a real calendar day of a year from 1 to 9999, as checkdate demands |
| Reglas.LeerFechaTexto | app/Http/Requests/StoreGestionRequest.php:51 | every date of years 1 to 9999 written 'Y-m-d' passes `date` and reads as that date |
| Reglas.LeerFechaGuiones | app/Http/Requests/StoreGestionRequest.php:51 | every such date written 'd-m-Y' passes `date` and reads as that date |
| Reglas.LeerFechaDmy | app/Http/Requests/StoreGestionRequest.php:51 | a date written 'd/m/Y' is read month first: it passes `date` exactly when its day is at most 12, and then reads with day and month swapped |
| Reglas.CentesimasEnRango | app/Http/Requests/StoreCertificacionRequest.php:20-21 | a grade that passes `min:0` and `max:100` is stored between 0.00 and 100.00 |
| Reglas.LeerTextoDecimal | app/Models/Certificacion.php:112-113 | the `decimal:2` text of a stored grade reads back as the same number of hundredths |
| Registros.ConDefensaTesis | app/Models/DatoAcademico.php:157-160 | keeps exactly the rows with a defence date |
| Registros.Matriculados | app/Models/DatoAcademico.php:162-165 | keeps exactly the rows whose `matriculado` is 'S' |
| Registros.ConActaCerrada | app/Models/DatoAcademico.php:167-170 | keeps exactly the rows whose `acta_cerrada` is 'S' |
| Registros.PorDocente | app/Models/DatoAcademico.php:179-182 | keeps exactly the rows of that teacher code |
| Registros.PorCarrera | app/Models/DatoAcademico.php:184-187 | keeps exactly the rows of that career code |
| Registros.ProgramasActivos | app/Models/Programa.php:96-99 | keeps exactly the programs whose estado is 'activo' |
| Registros.ProgramasPorTipo | app/Models/Programa.php:108-111 | keeps exactly the programs of that tipo |
| Registros.DocentesActivos | app/Models/Docente.php:80-83 | keeps exactly the teachers whose estado is 'activo' |
| Registros.CertificacionesEmitidas | app/Models/Certificacion.php:97-100 | keeps exactly the certificates whose estado is 'emitido' |
| Registros.TesisDefendidas | app/Models/Tesis.php:95-98 | keeps exactly the theses whose estado is 'defendida' |
| Registros.TesisAprobadas | app/Models/Tesis.php:100-103 | keeps exactly the theses whose estado is 'aprobada' |
| Registros.DatosDePrograma | app/Models/Programa.php:89-93 | a program's rows are exactly those with its career code and its term |
| Registros.DatosDeDocente | app/Models/Docente.php:73-77 | a teacher's rows are exactly those with its teacher code and its term |
| Registros.ObtenerPrograma | app/Models/DatoAcademico.php:206-211 | a program of the row's career code in the row's term, and none exactly when no such program exists |
| Registros.ObtenerDocente | app/Models/DatoAcademico.php:213-218 | a teacher of the row's teacher code in the row's term, and none exactly when no such teacher exists |
| Registros.ObtenerCertificacion | app/Models/DatoAcademico.php:220-228 | a certificate of the same student and term whose program has the row's career code, and none exactly when no certificate matches all three |
| Registros.ObtenerTesis | app/Models/DatoAcademico.php:230-238 | a thesis of the same student and term whose program has the row's career code, and none exactly when no thesis matches all three |
| Registros.ProgramaYDatosSeCorresponden | app/Models/Programa.php:89-93 | with unique (career code, term) keys a row is among a program's rows exactly when the row's lookup finds that program |
| Registros.DocenteYDatosSeCorresponden | app/Models/Docente.php:73-77 | with unique (teacher code, term) keys a row is among a teacher's rows exactly when the row's lookup finds that teacher |
| Registros.LeerSecuencial | app/Models/Certificacion.php:128-130 | a code is its prefix, '-', the year, '-', then digits that read back as the sequence number |
| Registros.SecuencialInyectivo | app/Models/Tesis.php:123-125 | one prefix and one year never give two numbers the same code |
| Registros.AgregarNumerada | app/Models/Certificacion.php:128-133 | appending a certificate numbered from the count of its year keeps every number equal to the count before it plus one |
| Registros.NumerosDistintos | app/Models/Certificacion.php:128-130 | while nothing is deleted, two certificates of one year never share a number |
| Registros.ColisionTrasBorrar | app/Models/Certificacion.php:129 | after the first certificate of a year is deleted, the next number is the one the remaining certificate already has |
| Registros.Titulo | app/Models/Tesis.php:128 | the title is "Trabajo Final de Grado - " followed by the student name, empty when missing |
| Registros.Promedio | app/Models/Certificacion.php:113 | the mean lies between the two grades; an exact mean is kept, and a mean half-way between two hundredths is rounded away from zero |
| Registros.ConPromedio | app/Models/Certificacion.php:110-116 | with both grades present the average is set to their mean and nothing else changes; with either missing the record is unchanged |
| Tablas.BuscarPrograma | app/Models/Programa.php:116-120 | the position of a program with key (cod_carrera, gestion_id), and none exactly when no program has that key |
| Tablas.TablaProgramas.PrimeroOCrear | app/Imports/DatosAcademicosImport.php:51-63 | an existing program with the key is returned and the table is unchanged; otherwise one new program with the row's values, 'maestria' and 'activo' is appended under a fresh id; the key stays unique |
| Tablas.TablaProgramas.CrearDesdeExcel | app/Models/Programa.php:114-131 | the program with the key is overwritten in place with the row's values and 'maestria', 'presencial', 'activo'; without one a new program is appended; the key stays unique |
| Tablas.BuscarDocente | app/Models/Docente.php:95-99 | the position of a teacher with key (cod_doc, gestion_id), and none exactly when no teacher has that key |
| Tablas.TablaDocentes.CrearDesdeExcel | app/Models/Docente.php:93-106 | the teacher with the key gets the new name, gender and 'activo', keeping its other fields; without one a new teacher is appended; the key stays unique |
| Tablas.TablaDatos.Crear | app/Imports/DatosAcademicosImport.php:84-111 | the row is appended under an id no earlier row has |
| Tablas.TablaDatos.EliminarDeCarga | app/Http/Controllers/ExcelController.php:219 | exactly the rows of that upload are removed, the rest keep their order and their distinct ids |
| Tablas.SeleccionarConservaIds | app/Http/Controllers/ExcelController.php:219 | deleting rows keeps the ids of the rest distinct and below the next id |
| Tablas.TablaCertificaciones.Reemplazar | app/Http/Controllers/CertificacionController.php:136 | one row is replaced, keeping its id; the rest are unchanged |
| Tablas.TablaCertificaciones.Eliminar | app/Http/Controllers/CertificacionController.php:147 | one row is removed, the rest keep their order and their distinct ids |
| Tablas.TablaCertificaciones.CalcularPromedio | app/Models/Certificacion.php:110-116 | the certificate at that position gets its average; nothing else changes |
| Tablas.TablaCertificaciones.CrearDesdeExcel | app/Models/Certificacion.php:121-148 | without a defence date nothing is created; otherwise one 'pendiente' certificate numbered after this year's count and with its average is appended, and a table numbered in order stays so |
| Tablas.TablaTesis.Reemplazar | app/Http/Controllers/TesisController.php:150 | one row is replaced, keeping its id; the rest are unchanged |
| Tablas.TablaTesis.Eliminar | app/Http/Controllers/TesisController.php:160 | one row is removed, the rest keep their order and their distinct ids |
| Tablas.TablaTesis.CrearDesdeExcel | app/Models/Tesis.php:116-144 | without a defence date nothing is created; otherwise one 'defendida' thesis coded after this year's count, titled after the student and tutored by the given teacher is appended |
| Tablas.TablaCertificaciones.Crear | app/Http/Controllers/CertificacionController.php:94 | `Certificacion::create`: the row is appended under the next id, which then advances, and the table's invariant is kept |
| Tablas.TablaTesis.Crear | app/Http/Controllers/TesisController.php:107 | `Tesis::create`: the row is appended under the next id, which then advances, and the table's invariant is kept |
| Cargas.ResumenConError | app/Models/CargaExcel.php:135-138 | the summary keeps every key it had; 'error' holds the message when the message is truthy, and a falsy message leaves the summary (empty when null) as it was |
| Cargas.ResumenConErrorUltimoGana | app/Models/CargaExcel.php:133-144 | marking a batch as failed twice leaves the later truthy message and the rest of the summary |
| Cargas.CargasCompletadas | app/Models/CargaExcel.php:99-102 | keeps exactly the batches in state completado |
| Cargas.CargasConError | app/Models/CargaExcel.php:104-107 | keeps exactly the batches in state error |
| Cargas.ScopesDisjuntos | app/Models/CargaExcel.php:99-107 | no batch is in both scopes, and together they count no more batches than the table holds |
| Cargas.TablaCargas.Crear | app/Http/Controllers/ExcelController.php:108-115 | a batch is appended under a fresh id with the given columns, zero counters, no summary and no processing time |
| Cargas.TablaCargas.MarcarComoProcesando | app/Models/CargaExcel.php:117-123 | only the state, now procesando, and the processing time of that batch change |
| Cargas.TablaCargas.MarcarComoCompletado | app/Models/CargaExcel.php:125-131 | only the state, now completado, and the summary of that batch change; the summary is replaced whole |
| Cargas.TablaCargas.MarcarComoError | app/Models/CargaExcel.php:133-144 | only the state, now error, and the summary of that batch change, the summary as ResumenConError states |
| Cargas.TablaCargas.ActualizarContadores | app/Models/CargaExcel.php:146-153 | only the three counters of that batch change |
| Cargas.TablaCargas.Eliminar | app/Http/Controllers/ExcelController.php:222 | one batch is removed; the rest keep their order and their distinct ids |
| Importacion.NormalizarModalidad | app/Imports/DatosAcademicosImport.php:40-48 | always one of the three program modalities; 'virtual' exactly for 'virtual'/'virt' in any case, 'semipresencial' exactly for 'semipresencial'/'sem'/'semi', otherwise 'presencial' |
| Importacion.MinusculasSinMayusculas | app/Imports/DatosAcademicosImport.php:41 | text without capitals is its own lower case |
| Importacion.MinusculasIdempotente | app/Imports/DatosAcademicosImport.php:41 | lower-casing twice is lower-casing once |
| Importacion.ModalidadSinMayusculas | app/Imports/DatosAcademicosImport.php:40-48 | a cell and its lower case give the same modality |
| Importacion.ModalidadIdempotente | app/Imports/DatosAcademicosImport.php:40-48 | normalising an already normalised modality changes nothing |
| Importacion.NormalizarGenero | app/Imports/DatosAcademicosImport.php:68 | always 'M' or 'F', and 'F' exactly when the cell's first character is 'f' or 'F' |
| Importacion.PrimerFormato | app/Imports/DatosAcademicosImport.php:188-195 | a valid date when some format reads the text, and none exactly when every format rejects it |
| Importacion.PrimerFormatoGana | app/Imports/DatosAcademicosImport.php:190-195 | the result is what one of the listed formats reads |
| Importacion.FechaImportada | app/Imports/DatosAcademicosImport.php:180-207 | nothing for an empty cell; the first format that reads the text; otherwise the serial-number conversion for numeric text; otherwise nothing |
| Importacion.ParseDate | app/Imports/DatosAcademicosImport.php:180-207 | the loop over the formats, returning at the first that reads the text, computes FechaImportada |
| Importacion.ImportaYmd | app/Imports/DatosAcademicosImport.php:188-193 | a date written Y-m-d is read back as that date |
| Importacion.ImportaDmy | app/Imports/DatosAcademicosImport.php:188-193 | a date written d/m/Y is read as that date, not misread by the Y-m-d format |
| Importacion.FechaValidadaAlImportar | app/Imports/DatosAcademicosImport.php:180-207 | for a defence date that passes `date`, parseDate stores the same date when it is written year first or day-month-year with dashes; the date with day and month swapped when it is American month/day/year; and NULL when it has a dot or a tab |
| Importacion.ConRestoNoSeImporta | app/Imports/DatosAcademicosImport.php:180-207 | a 'Y-m-d' date followed by a time of day or other text that starts with a non-digit is read by no format and is no number, so it is stored as NULL |
| Importacion.SinDigitoInicialNoSeImporta | app/Imports/DatosAcademicosImport.php:180-207 | a cell that starts with a non-digit and is no number, such as " 2024-03-01", is read by no format, so it is stored as NULL |
| LecturaFechas.FormatosAnioPrimero | app/Imports/DatosAcademicosImport.php:186-193 | a year-first text with dashes is read by 'Y-m-d'; with slashes only 'Y/m/d' reads it |
| LecturaFechas.FormatosMesPrimero | app/Imports/DatosAcademicosImport.php:186-193 | an American month/day/year text fails 'Y-m-d' and 'd/m/Y' reads it with day and month swapped |
| LecturaFechas.FormatosDiaPrimero | app/Imports/DatosAcademicosImport.php:186-193 | a day-month-year text with two dashes fails 'Y-m-d' (trailing digits) and 'd/m/Y' and is read by 'd-m-Y'; with a dot or a tab no format reads it |
| LecturaFechas.FormatosConResto | app/Imports/DatosAcademicosImport.php:186-193 | none of the four formats reads a 'Y-m-d' text followed by text that starts with a non-digit |
| LecturaFechas.FormatosSinDigitoInicial | app/Imports/DatosAcademicosImport.php:186-193 | none of the four formats reads a text whose first character is not a digit, such as a date with a leading blank |
| Importacion.DatoDeFila | app/Imports/DatosAcademicosImport.php:84-111 | the academic row carries the batch and the term, the row's keys, the parsed defence date and the grades as read |
| Importacion.ValoresDe | app/Imports/DatosAcademicosImport.php:39-81 | the derived values have a valid modality and gender 'M' or 'F', the row's program and teacher keys, a program name ('Programa sin nombre' when missing) and the academic row DatoDeFila builds |
| Importacion.AlcanceValores | app/Imports/DatosAcademicosImport.php:67-114 | the derived values call for the teacher step exactly when cod_doc is truthy and for the defence steps exactly when a defence date was parsed |
| Importacion.ExitososAgregar | app/Imports/DatosAcademicosImport.php:134 | one more row adds one success exactly when that row is stored without an exception |
| Importacion.Avanzar | app/Imports/DatosAcademicosImport.php:36-134 | the processed, success and rejected-row counts over one more row are those before it plus that row's |
| Importacion.FilasRepartidas | app/Imports/DatosAcademicosImport.php:19 | every row is exactly one of empty, rejected by the rules, or processed |
| Importacion.ExitososProcesados | app/Imports/DatosAcademicosImport.php:36-134 | there are never more successes than processed rows |
| Importacion.RegistrarPrograma | app/Imports/DatosAcademicosImport.php:51-63 | fails exactly when the exception strikes at this step, writing nothing; otherwise firstOrCreate's result: an existing program untouched or one new program appended |
| Importacion.RegistrarDocente | app/Imports/DatosAcademicosImport.php:66-81 | fails exactly when the row performs this step and the exception strikes there; without a cod_doc nothing changes; otherwise the teacher is upserted with the normalised gender, last row wins |
| Importacion.RegistrarCertificacion | app/Imports/DatosAcademicosImport.php:114-122 | fails exactly when the exception strikes at this step; without a defence nothing changes; otherwise Certificacion::crearDesdeExcel runs with the stored row's fields |
| Importacion.RegistrarTesis | app/Imports/DatosAcademicosImport.php:124-130 | fails exactly when the exception strikes at this step; without a defence nothing changes; otherwise Tesis::crearDesdeExcel runs with the row's teacher as tutor |
| Importacion.RegistrarDefensa | app/Imports/DatosAcademicosImport.php:114-131 | the certificate then the thesis; fails exactly when the exception strikes at one of them, with its message |
| Importacion.ImportadorDatos.AlmacenarDato | app/Imports/DatosAcademicosImport.php:51-111 | fails exactly when the exception strikes at or before the academic row; on success the row is stored under a fresh id with the program's id and the tutor; what earlier steps wrote stays |
| Importacion.ImportadorDatos.Almacenar | app/Imports/DatosAcademicosImport.php:38-135 | fails exactly when the exception strikes at a step the row performs, with its message; the academic row is stored exactly when no exception came at or before it |
| Importacion.ImportadorDatos.Procesar | app/Imports/DatosAcademicosImport.php:36-144 | the row counts as processed; a stored row counts as a success and is returned; an exception counts as an error and is recorded with the processed count, its message and the raw row; processed = successes + errors holds |
| Importacion.ImportadorDatos.Modelo | app/Imports/DatosAcademicosImport.php:34-145 | model() on a raw row: as Procesar, with the row stored being DatoDeFila of the row |
| Importacion.ImportadorDatos.ProcesarRenglon | app/Imports/DatosAcademicosImport.php:19 | an empty row changes nothing, a row the rules reject is recorded by its row number, any other row goes through model() |
| Importacion.ImportadorDatos.Siguiente | app/Imports/DatosAcademicosImport.php:19 | after row i the counters stand for the rows up to and including i |
| Importacion.ImportadorDatos.Importar | app/Imports/DatosAcademicosImport.php:19-33 | over a whole sheet: processed grows by the non-empty valid rows, successes by those stored without an exception, rejected rows are listed by spreadsheet row number from 2, and academic rows are only appended, all under this batch |
| Importacion.ImportadorDatos.constructor | app/Imports/DatosAcademicosImport.php:23-32 | a new importer starts with every counter zero and no errors |
| ExcelControlador.ErrorSubida | app/Http/Controllers/ExcelController.php:90-98 | the upload is accepted exactly when a file is given, its extension is xlsx, xls or csv, it is at most 10240 KB and the description has at most 500 characters; otherwise the first broken rule's message |
| ExcelControlador.RutaArchivo | app/Http/Controllers/ExcelController.php:102-105 | the stored path lies under excel_uploads/ and ends with the original file name |
| ExcelControlador.Subir | app/Http/Controllers/ExcelController.php:81-125 | without a current term, with a rejected request or with a storage exception no batch is created and the matching message is returned; otherwise exactly one 'pendiente' batch of the current term and the uploading user is appended |
| ExcelControlador.ResumenFinal | app/Http/Controllers/ExcelController.php:155-161 | the summary holds exactly the three counts, the errors and the processing time |
| ExcelControlador.MensajeProcesado | app/Http/Controllers/ExcelController.php:165 | the success message starts "Archivo procesado correctamente. " |
| ExcelControlador.Ejecutar | app/Http/Controllers/ExcelController.php:142-149 | the importer's counts are the processed rows and the successes over the sheet, processed = successes + errors, one error entry per error; academic rows are only appended, under this batch |
| ExcelControlador.Importar | app/Http/Controllers/ExcelController.php:142-163 | the batch ends completado with the importer's counters and a summary quoting them; no other batch changes |
| ExcelControlador.Procesar | app/Http/Controllers/ExcelController.php:127-172 | the batch always gets its processing time; it ends completado with the import's counts exactly when the file exists and reads, otherwise error with the message added to its summary and no academic row written; no other batch changes |
| ExcelControlador.Eliminar | app/Http/Controllers/ExcelController.php:208-229 | the batch and exactly its academic rows are deleted; other batches and their rows stay |
| ExcelControlador.SumaAcota | app/Http/Controllers/ExcelController.php:57 | each batch's processed rows are included in the sum |
| ExcelControlador.CargasEnContexto | app/Http/Controllers/ExcelController.php:51 | with a current term exactly its batches, otherwise all batches |
| ExcelControlador.EstadisticasIndice | app/Http/Controllers/ExcelController.php:50-58 | total, completed and failed batches in context, with completed + failed never above the total, and the processed rows as the sum over those batches, no smaller than any one batch's |
| Validaciones.RequeridoEnLista | app/Http/Requests/StoreCertificacionRequest.php:19-24 | a field that passes `required` with `in:` holds one of the options |
| Validaciones.NotaValidada | app/Http/Requests/StoreCertificacionRequest.php:20-21 | a grade that passes the `nullable`, `numeric`, `min:0` and `max:100` rules is stored between 0.00 and 100.00, and is stored whenever it was given |
| Validaciones.ValidarCertificacion | app/Http/Requests/StoreCertificacionRequest.php:14-26 | a valid certificate request stores a gender M or F, one of the three states, an existing program, a number of 1-20 and a name of 1-255 characters, grades in range, and a date exactly when one was given |
| Validaciones.ValidarTesis | app/Http/Requests/StoreTesisRequest.php:14-26 | a valid thesis request stores a title of 1-500 characters, a number and a name within their limits, one of the four states, an existing program, the given tutor (an existing teacher when present) and a grade in range |
| Validaciones.UnicoAltaImplicaEdicion | app/Http/Requests/UpdateDocenteRequest.php:19 | a code unique on create is unique on any update, since the update rule only ignores one more row |
| Validaciones.UnicoPropio | app/Http/Requests/UpdateProgramaRequest.php:19 | a record keeping its own code passes the update rule when no other record holds the code, while the create rule rejects that code |
| Validaciones.DocenteAltaImplicaEdicion | app/Http/Requests/StoreDocenteRequest.php:14-24 | a teacher request valid under the store rules is valid under the update rules for any teacher |
| Validaciones.ProgramaAltaImplicaEdicion | app/Http/Requests/StoreProgramaRequest.php:14-24 | a program request valid under the store rules is valid under the update rules for any program |
| Expedientes.EstadosDisponiblesCertificacion | app/Http/Controllers/CertificacionController.php:126-130 | the offered states are exactly the three states the certificate rules accept, in the same order |
| Expedientes.EstadosDisponiblesTesis | app/Http/Controllers/TesisController.php:139-144 | the offered states are exactly the four states the thesis rules accept, in the same order |
| Expedientes.PromedioDeFormulario | app/Http/Controllers/CertificacionController.php:134-137 | after an edit from a valid form and the recomputed average, both grades and the average lie between 0.00 and 100.00, and with a grade missing the average is the one the row had |
| Expedientes.EmitirSumaEmitida | app/Http/Controllers/CertificacionController.php:152-162 | issuing a certificate adds exactly one row to the issued scope unless it was already issued |
| Expedientes.GuardarCertificacion | app/Http/Controllers/CertificacionController.php:85-104 | without a current term nothing is stored, since the NOT NULL `gestion_id` refuses the insert; otherwise one certificate is appended with the form's values, the number CERT-<año>-NNNN after this year's count, the current term and its average; a table numbered in order stays so |
| Expedientes.ActualizarCertificacion | app/Http/Controllers/CertificacionController.php:134-141 | only that certificate changes: the form's fields, then the average recomputed |
| Expedientes.EmitirCertificacion | app/Http/Controllers/CertificacionController.php:152-162 | only that certificate changes, to 'emitido' dated today, and it is then among the issued ones |
| Expedientes.EliminarCertificacion | app/Http/Controllers/CertificacionController.php:143-150 | that certificate is removed, the others keep their order |
| Expedientes.AprobarSumaAprobada | app/Http/Controllers/TesisController.php:165-172 | approving adds exactly one thesis to the approved scope unless it was approved, and takes one from the defended scope when it was defended |
| Expedientes.CodigoTrasEliminar | app/Http/Controllers/TesisController.php:104-105 | after a thesis of the year is deleted, the next code is the one the year's last thesis already carries |
| Expedientes.GuardarTesis | app/Http/Controllers/TesisController.php:98-115 | without a current term nothing is stored, since the NOT NULL `gestion_id` refuses the insert; otherwise one thesis is appended with the form's values, the code TESIS-<año>-NNNN after this year's count and the current term |
| Expedientes.ActualizarTesis | app/Http/Controllers/TesisController.php:148-154 | only that thesis changes, to the form's fields; its code, term and year stay |
| Expedientes.AprobarTesis | app/Http/Controllers/TesisController.php:165-172 | only that thesis's state changes, to 'aprobada', and it is then among the approved ones |
| Expedientes.EliminarTesis | app/Http/Controllers/TesisController.php:156-163 | that thesis is removed, the others keep their order |
| DatosAcademicos.FiltroCarrera | app/Http/Controllers/DatosAcademicosController.php:41-43 | a truthy `carrera` keeps exactly the rows of that program code; a falsy one keeps every row |
| DatosAcademicos.FiltroDefensa | app/Http/Controllers/DatosAcademicosController.php:45-51 | 'si' keeps exactly the rows with a defence date, 'no' exactly those without, any other value every row |
| DatosAcademicos.MatriculadoBuscado | app/Http/Controllers/DatosAcademicosController.php:53-55 | a value is sought exactly when the filter is truthy; it is 'S' exactly for 'si' and 'N' for anything else |
| DatosAcademicos.FiltroMatricula | app/Http/Controllers/DatosAcademicosController.php:53-55 | a truthy `matriculado` keeps exactly the rows holding the sought value; a falsy one keeps every row |
| DatosAcademicos.ConsultaExacta | app/Http/Controllers/DatosAcademicosController.php:22-55 | the index query keeps exactly the rows of the cached term that pass every filter given |
| DatosAcademicos.DefensaOSinDefensa | app/Http/Controllers/DatosAcademicosController.php:46-50 | the rows with and without a defence date together are all the rows |
| DatosAcademicos.ConsultaPorDefensa | app/Http/Controllers/DatosAcademicosController.php:45-51 | with only `con_defensa` set to 'si' or 'no', the query is one selection over the term's and program's rows |
| DatosAcademicos.DefensaParte | app/Http/Controllers/DatosAcademicosController.php:45-51 | the 'si' and 'no' listings split the unfiltered listing between them |
| DatosAcademicos.Distintos | app/Http/Controllers/DatosAcademicosController.php:76-81 | the distinct values counted are exactly the non-null values of the column |
| DatosAcademicos.DistintosAcotados | app/Http/Controllers/DatosAcademicosController.php:76-81 | a column never holds more distinct values than the table has rows |
| DatosAcademicos.EstadisticasIndice | app/Http/Controllers/DatosAcademicosController.php:69-82 | over the rows of the cached term (all rows without one): the row count; the sizes of the defence, enrolment and closed-record scopes, with defended plus undefended equal to the total; and the distinct non-null student numbers, program codes and teacher codes, each zero exactly when the column is null in every row |
| DatosAcademicos.DatosDeEstudiante | app/Http/Controllers/DatosAcademicosController.php:139-147 | exactly the rows of that student number, in the cached term when one is cached |
| DatosAcademicos.Estudiante | app/Http/Controllers/DatosAcademicosController.php:135-166 | no summary exactly when the student has no rows; otherwise the first row's registration number, name and gender, the number of subjects, the number of rows graded 51 or more, a defence exactly when some row has a defence date, the defence date of the first row that has one, and the defence grade of the first row that has one, present exactly when some row has one |
| DatosAcademicos.PrimeraDefensa | app/Http/Controllers/DatosAcademicosController.php:164 | the defence date of the first row that has one; nothing exactly when no row has one |
| DatosAcademicos.PrimeraNotaDefensa | app/Http/Controllers/DatosAcademicosController.php:165 | the defence grade of the first row that has one; nothing exactly when no row has one |
| DatosAcademicos.AprobadasConNota | app/Http/Controllers/DatosAcademicosController.php:161 | passed subjects never outnumber the graded ones, since a subject without a grade is never passed |
| Reportes.BuscarPorId | app/Http/Controllers/ReportController.php:48 | the program with the requested id, and none exactly when no program has that id |
| Reportes.DatosDeCarrera | app/Http/Controllers/ReportController.php:55-56 | exactly the rows of that period and program code |
| Reportes.ProgramaDeCarrera | app/Http/Controllers/ReportController.php:207-209 | nothing exactly when no program of that period has the code; otherwise the first such program in table order |
| Reportes.Minima | app/Http/Controllers/ReportController.php:67 | the earliest non-null date, one of the inputs, and none exactly when every date is null |
| Reportes.Maxima | app/Http/Controllers/ReportController.php:68 | the latest non-null date, one of the inputs, and none exactly when every date is null |
| Reportes.FilaDeEstudiante | app/Http/Controllers/ReportController.php:60-98 | entry is a start date of one of the rows and no later than any; conclusion is the end date of a closed record and no earlier than any closed record's end date, missing ('NO CONCLUYÓ') exactly when no closed record has one; the thesis date is that of the first row with a defence, missing exactly when no row has one; each stay exists exactly when both of its dates do |
| Reportes.ListaEstudiantes | app/Http/Controllers/ReportController.php:57-59 | each (number, name, gender) of the rows exactly once |
| Reportes.DatosDelRegistro | app/Http/Controllers/ReportController.php:62-65 | exactly the program's rows of that registration number |
| Reportes.InformeAnual | app/Http/Controllers/ReportController.php:42-114 | an error exactly when the period or the program is not found; otherwise one line per distinct student of the program in the period, built from that student's rows |
| Reportes.RegistrosDeGenero | app/Http/Controllers/ReportController.php:139-144 | the registration numbers of exactly the rows of that gender |
| Reportes.GenerosAcotados | app/Http/Controllers/ReportController.php:143-153 | men and women together never outnumber the rows they are counted from |
| Reportes.Conteo | app/Http/Controllers/ReportController.php:136-154 | the program's code and name, edition 1, version 1 without a plan code, men and women as distinct registrations of each gender, and a total that is their sum and at most the rows |
| Reportes.ProgramasDeFacultad | app/Http/Controllers/ReportController.php:131-134 | exactly the programs of the period, and of the faculty when a truthy faculty code is given |
| Reportes.TituloComoEscritoNombraPrograma | app/Http/Controllers/ReportController.php:157-161 | a faculty whose first program has a different name is titled with the program's name, not the faculty's |
| Reportes.Titulo | app/Http/Controllers/ReportController.php:157-161 | the faculty name of the first program listed, or 'Todas las Facultades' when there is none |
| Reportes.ResumenProgramas | app/Http/Controllers/ReportController.php:119-173 | an error exactly when the period is not found; otherwise one line per program of the period (and faculty), in table order, titled with the first program's faculty (as intended; as written: see ## Findings) |
| Reportes.DefensasEntreInscritos | app/Http/Controllers/ReportController.php:317-325 | men and women who defended are never more than those counted in the program summary |
| Reportes.SoloConDefensas | app/Http/Controllers/ReportController.php:337-339 | exactly the lines with a positive total |
| Reportes.ResumenDefensas | app/Http/Controllers/ReportController.php:299-357 | an error exactly when the period is not found; otherwise exactly the defence lines of the programs of the period (and faculty) with a positive total, in the programs' table order, each total being men plus women |
| Reportes.CursadasEntreMaterias | app/Http/Controllers/ReportController.php:203-205 | closed subjects are never more than the subjects, so the pending count is never negative |
| Reportes.FilaEstadoDe | app/Http/Controllers/ReportController.php:198-222 | total is the distinct subjects of the student in the program and period, cursadas the distinct closed ones, and cursadas + pendientes = total |
| Reportes.ListaInscritos | app/Http/Controllers/ReportController.php:195-197 | each (student, program) pair of the rows exactly once: every listed pair comes from a row and every row's pair is listed |
| Reportes.DatosEstado | app/Http/Controllers/ReportController.php:191-194 | rows of the period only, and only of the requested program when a truthy id is given |
| Reportes.EstadoAlumnos | app/Http/Controllers/ReportController.php:178-238 | an error exactly when the period is not found, or a truthy program id names no program (the read of a null program); otherwise one line per distinct student of the period (and program) |
| Reportes.EstadoAlumnosCorrecto | app/Http/Controllers/ReportController.php:203-205 | every line has no more closed than total subjects, and with a program asked for every line is of that program |
| Reportes.ActividadDe | app/Http/Controllers/ReportController.php:262-279 | the activity carries the row's teacher code and subject, edition 1 |
| Reportes.DocentePorId | app/Http/Controllers/ReportController.php:258 | the teacher with the requested id, and none exactly when no teacher has it |
| Reportes.ReporteDocentes | app/Http/Controllers/ReportController.php:243-294 | an error exactly when the period is not found or a truthy teacher id names no teacher; otherwise one activity per row of the period that has a teacher code (that teacher's code when one is asked for), built from that row, in table order |
| Reportes.NombreAntesEsOrden | app/Http/Controllers/ReportController.php:370-384 | ORDER BY a nullable name is total and transitive |
| Reportes.OrdenesPorNombre | app/Http/Controllers/ReportController.php:370-384 | ordering programs by name, teachers by name and faculties by name are total and transitive |
| Reportes.FacultadesDe | app/Http/Controllers/ReportController.php:381-382 | the faculty pairs listed are exactly those of the programs |
| Reportes.Facultades | app/Http/Controllers/ReportController.php:380-386 | the period's distinct faculty pairs, each once, ordered by faculty name |
| Reportes.DatosParaFiltros | app/Http/Controllers/ReportController.php:362-391 | 'programas' gives exactly the period's programs ordered by name, 'docentes' exactly its teachers ordered by name, 'facultades' its distinct faculties, anything else an empty list |
| Tablero.Color | app/Http/Controllers/DashboardController.php:341 | a key written in any case gets the colour listed for it in a lower-case table, anything unlisted gets the default grey, and the result is always a colour |
| Tablero.MismaClave | app/Http/Controllers/DashboardController.php:341 | the only key a text can match regardless of case is its `strtolower` |
| Tablero.ColoresTipoValidos | app/Http/Controllers/DashboardController.php:334-339 | the program-type colour table has lower-case keys and colour values |
| Tablero.ColoresModalidadValidos | app/Http/Controllers/DashboardController.php:349-354 | the modality colour table has lower-case keys and colour values |
| Tablero.ColoresEstadoValidos | app/Http/Controllers/DashboardController.php:364-370 | the thesis-state colour table has lower-case keys and colour values |
| Tablero.ColorParaTipo | app/Http/Controllers/DashboardController.php:332-342 | a type gets a non-grey colour exactly when it matches one of the four listed types regardless of case |
| Tablero.ColorParaModalidad | app/Http/Controllers/DashboardController.php:347-357 | a modality gets a non-grey colour exactly when it matches one of the four listed modalities regardless of case |
| Tablero.ColorParaEstado | app/Http/Controllers/DashboardController.php:362-373 | a state gets a non-grey colour exactly when it matches a listed state other than 'pendiente', which is grey itself |
| Tablero.NombreMes | app/Http/Controllers/DashboardController.php:378-387 | 'Mes desconocido' exactly for numbers outside 1 to 12 |
| Tablero.NombreMesInyectivo | app/Http/Controllers/DashboardController.php:380-384 | no two months share a name |
| Tablero.CocienteDe | app/Http/Controllers/DashboardController.php:149 | a ratio is zero exactly when its denominator is zero, and otherwise keeps both counts |
| Tablero.ContarActivos | app/Http/Controllers/DashboardController.php:117-127 | total, active and inactive rows of a scope: the active and inactive counts add up to the total, and the share is zero only without rows |
| Tablero.Principales | app/Http/Controllers/DashboardController.php:115-170 | the period's teachers and programs and their active ones counted, inactive as the rest; the certificates, theses and approved theses of the period's programs counted, pending as the rest; each ratio is zero exactly when its denominator is, and otherwise the two counts it divides |
| Tablero.MasRecienteEsOrden | app/Http/Controllers/DashboardController.php:83 | latest-first by creation time is a total, transitive order |
| Tablero.NadaSaltado | app/Http/Controllers/DashboardController.php:84 | in a sorted copy of a table, at most i rows come strictly before the i-th |
| Tablero.PrimerosDeOrdenada | app/Http/Controllers/DashboardController.php:83-84 | the first n rows of a sorted table are in order, come from the table, are all of it when it has no more than n rows, and none left out precedes them |
| Tablero.Primeros | app/Http/Controllers/DashboardController.php:89-90 | `orderBy(...)->take(n)`: min(n, rows) rows, sorted, taken from the table, and at most i rows precede the i-th kept |
| Tablero.EstadosPresentes | app/Http/Controllers/DashboardController.php:76-79 | every state that occurs among the theses is counted at least once |
| Tablero.PorEstado | app/Http/Controllers/DashboardController.php:76-79 | one entry per state that occurs, holding the number of theses in that state |
| Tablero.Recientes | app/Http/Controllers/DashboardController.php:81-85 | n rows satisfying the condition, or all of them when fewer, latest first, with at most i qualifying rows more recent than the i-th kept |
| Tablero.DeLaSeleccion | app/Http/Controllers/DashboardController.php:82-84 | rows kept from a `where` come from the table and satisfy it; counts among them are counts with both conditions |
| Tablero.MasVisitadas | app/Http/Controllers/DashboardController.php:88-91 | five pages, or all when fewer, most visited first, drawn from the table without repeats, with at most i pages of the table more visited than the i-th kept |
| Tablero.TesisPorEstado | app/Http/Controllers/DashboardController.php:76-79 | exactly the states of the period's theses are keys, each with a count of at least one |
| Tablero.Index | app/Http/Controllers/DashboardController.php:53-108 | with a current period: its four counts, its theses by state and its five latest theses; without one: no statistics and empty lists; the most visited pages in both cases |
| Tablero.NombreDeTutor | app/Http/Controllers/DashboardController.php:289 | a thesis without a tutor reads 'Sin tutor' |
| Tablero.Fusionar | app/Http/Controllers/DashboardController.php:297-302 | merging two lists of at most five, latest first, and cutting to ten keeps every item of both, in order |
| Tablero.ActividadesDeCertificaciones | app/Http/Controllers/DashboardController.php:264-273 | one activity entry per certificate, in the same order |
| Tablero.ActividadesDeTesis | app/Http/Controllers/DashboardController.php:283-295 | one activity entry per thesis, in the same order |
| Tablero.ActividadReciente | app/Http/Controllers/DashboardController.php:254-309 | the five latest certificates and theses of the period's programs as entries, and the combined list latest first, at most ten long, holding exactly the items of both |
| Visitas.Clave | app/Http/Middleware/TrackPageVisits.php:18 | the counted key is the route name when one is present and not falsy, otherwise (no name, "" or "0") the path |
| Visitas.Registrar | app/Http/Middleware/TrackPageVisits.php:17-28 | a counted request adds one visit to its own route (creating the row at one) and leaves every other row alone; any other request changes nothing |
| Visitas.ConteoAcumulado | app/Http/Middleware/TrackPageVisits.php:14-36 | after any sequence of requests a route's count has grown by exactly the number of counted requests for it |
| Visitas.ContadorDeVisitas.Upsert | app/Http/Middleware/TrackPageVisits.php:21-28 | a new route gets one visit, a known route one more, and no other row changes |
| Visitas.ContadorDeVisitas.Manejar | app/Http/Middleware/TrackPageVisits.php:14-36 | the table becomes `Registrar` of the old one; a counted request is passed on carrying its route's new count, any other request unchanged |
| Permisos.ConPermiso | database/seeders/RolesPermissionsSeeder.php:75 | `firstOrCreate` of a permission: afterwards it exists, nothing else changes, and a table without duplicates stays without |
| Permisos.ConPermisos | database/seeders/RolesPermissionsSeeder.php:74-76 | the loop adds exactly the listed permissions, keeps the table free of duplicates, and changes nothing when all exist |
| Permisos.ConRol | database/seeders/RolesPermissionsSeeder.php:79-81 | `firstOrCreate` of a role: afterwards it exists and nothing else changes |
| Permisos.Conceder | database/seeders/RolesPermissionsSeeder.php:86-115 | `givePermissionTo` adds the permissions to that role's grants and leaves every other role's alone |
| Permisos.ConUsuario | database/seeders/RolesPermissionsSeeder.php:118-123 | `firstOrCreate` of a user by e-mail: afterwards it exists, and an existing user is left as it is |
| Permisos.Asignar | database/seeders/RolesPermissionsSeeder.php:125-145 | `assignRole` adds the role to that user's roles and leaves every other user's alone |
| Permisos.SecretarioEnLista | database/seeders/RolesPermissionsSeeder.php:97-115 | every permission given to the secretary is one the seeder creates |
| Permisos.SecretarioSinUsuarios | database/seeders/RolesPermissionsSeeder.php:89-115 | none of the secretary's permissions is a withheld user-management one |
| Permisos.SemillaCoherente | database/seeders/RolesPermissionsSeeder.php:20-115 | the secretary's permissions are all created and none is withheld from the director |
| Permisos.ConUsuariosConserva | database/seeders/RolesPermissionsSeeder.php:117-145 | creating and assigning the default users leaves permissions, roles and grants as they are, and each user exists with its role |
| Permisos.SembradoConcede | database/seeders/RolesPermissionsSeeder.php:17-145 | after `run`: the planned permissions and the three roles exist; the administrator gains every permission in the table, the director all but the user-management ones, the secretary its list; other roles are untouched; the default users exist with their roles |
| Permisos.SembradoDesdeVacia | database/seeders/RolesPermissionsSeeder.php:17-145 | on an empty database each role is granted exactly its planned set |
| Permisos.CadenaSembrada | database/seeders/RolesPermissionsSeeder.php:83-115 | seeding keeps the secretary's grants within the director's, and the director's within the administrator's |
| Permisos.ConRolesConcedidosEstable | database/seeders/RolesPermissionsSeeder.php:74-115 | permissions, roles and grants already in place are found, not duplicated |
| Permisos.ConUsuariosEstable | database/seeders/RolesPermissionsSeeder.php:117-145 | users that exist with their roles are left as they are |
| Permisos.SembrarIdempotente | database/seeders/RolesPermissionsSeeder.php:17-145 | running the seeder twice gives the same database as running it once |
| Permisos.SemillaDesdeVacia | database/seeders/RolesPermissionsSeeder.php:17-115 | on a fresh database the administrator has all 36 permissions, the director none of the user-management ones, and the grants form the chain secretary within director within administrator |
| Permisos.BaseDeDatos.constructor | database/seeders/RolesPermissionsSeeder.php:17 | the seeder starts from an empty database |
| Permisos.BaseDeDatos.CrearPermiso | database/seeders/RolesPermissionsSeeder.php:75 | the new state is `ConPermiso` of the old |
| Permisos.BaseDeDatos.CrearRol | database/seeders/RolesPermissionsSeeder.php:79-81 | the new state is `ConRol` of the old |
| Permisos.BaseDeDatos.DarPermisos | database/seeders/RolesPermissionsSeeder.php:86-115 | the new state is `Conceder` of the old |
| Permisos.BaseDeDatos.CrearUsuario | database/seeders/RolesPermissionsSeeder.php:118-123 | the new state is `ConUsuario` of the old |
| Permisos.BaseDeDatos.AsignarRol | database/seeders/RolesPermissionsSeeder.php:125-145 | the new state is `Asignar` of the old |
| Permisos.BaseDeDatos.CrearPermisos | database/seeders/RolesPermissionsSeeder.php:74-76 | the loop over the permission list leaves the state `ConPermisos` of the old |
| Permisos.BaseDeDatos.CrearUsuarios | database/seeders/RolesPermissionsSeeder.php:117-145 | the three user blocks leave the state `ConUsuarios` of the old |
| Permisos.BaseDeDatos.CrearRolesYConceder | database/seeders/RolesPermissionsSeeder.php:78-115 | creating the roles and granting them leaves the state `Concesiones` of the old |
| Permisos.BaseDeDatos.Sembrar | database/seeders/RolesPermissionsSeeder.php:17-145 | `run` leaves the state `Sembrado` of the old, so everything proved of `Sembrado` holds of it |

## Left out

- Rendering: Inertia pages, Blade views, PDF downloads and the CSV template download (`descargarPlantilla`) are presentation only.
- Authorization: `authorize`, `can` and the request classes' `authorize()` belong to the framework and Spatie. The `permisos` flags that the index screens pass to the front end are also left out.
- Authentication and users: the login flow and the user controller are out of scope. The seeder's password hashing and console messages are left out too.
- Storage and the spreadsheet reader: these are replaced by their outcomes. The model receives whether the stored file exists, the rows read, and the exception a step throws. Logging is left out.
- Cache: `Cache::get('gestion_actual')` becomes a parameter, and the cached menu is not modelled.
- Pagination and `with()` eager loading have no computed behaviour of their own, so they are not modelled.
- The free-text searches of the records, batch, program, certificate and thesis listings are not modelled; they only narrow a listing. The term listing's `LIKE` search (Gestiones.Filtrar) is modelled as a substring test by code point and its year filter as a prefix test. MySQL's case-insensitive collation and the `%` and `_` wildcards inside a search text are not modelled.
- Floating point is not modelled, so these values are left out:
  - the stay in years (`diffInMonths / 12`);
  - `promedio_general`;
  - `duracion_dias`;
  - the dashboard percentages and per-program averages. The model keeps the two whole counts of each ratio and whether its denominator is zero.
- The Excel serial-number branch of `parseDate` is not modelled. It depends on Unix timestamps and the time zone, so the conversion is a function parameter.
- The grade average is rounded half up on exact hundredths. Binary floating-point effects at .005 are left out.
- Ties under ORDER BY and database collation are not modelled. Ties keep table order, as a stable sort would, and text is compared by code point.
- Database unique indexes are not modelled as constraints. Where count-based CERT-/TESIS- numbering can collide after a deletion, a lemma states the collision.
- Concurrency is out of scope. Races in clearing and then setting `es_actual`, and in count-based numbering, are not modelled; every operation runs alone, as inside `DB::transaction`.
- Enum values that appear in validators but not in the migrations are not reconciled. Migrations are used only for field domains and keys.
- The charts' group-by queries and `obtenerEstadisticasGestion` are left out. They feed only charts built from floating-point or date groupings.
- `obtenerResumenSistema` is left out: it is a set of plain counts over whole tables.
- `ExcelController::show` statistics, `companerosPrograma` and the `carreras` list of the records index are left out. They are plain lookups for display.
- `anio` of a certificate or thesis is taken as a stored field equal to the year of its `created_at`. The clock itself is an input.
- Reglas.LeerFecha: the `date` rule (strtotime, then checkdate) is modelled on strtotime's all-numeric forms: year, month and day with dashes or slashes; American month/day/year with slashes; day, month and year with dashes, dots or a tab. Texts with a time of day, month or day names, relative words, two-digit years, a sign or surrounding spaces are refused by the model although strtotime reads some of them.
- SolicitudesGestion.ErroresInicio: the start date's `date` rule is Reglas.LeerFecha, so a start date strtotime reads in a form outside the all-numeric ones (a time of day, a month name, a two-digit year) is an error in the model and not in the source.
- SolicitudesGestion.ErroresFin: the same narrowing of `date` applies to the end date.
- SolicitudesGestion.ReglasSinErrores: the same narrowing of `date` applies to both dates of the rule table.
- SolicitudesGestion.ValidarCreacion: the same narrowing of `date` applies. The overlap query compares the request's raw texts with the stored dates in SQL; the model compares the dates the rule reads, which is the same comparison for 'Y-m-d' text. How the database converts other texts is not modelled.
- SolicitudesGestion.ValidarEdicion: the same narrowing of `date` and the same overlap comparison apply.
- Importacion.ImportadorDatos.ProcesarRenglon: the defence date's `date` rule is Reglas.LeerFecha, so a row whose defence date strtotime reads in a form outside the all-numeric ones is rejected by the model but not by the source. Such a row would be stored with a NULL date when it is 'Y-m-d' followed by a time (Importacion.ConRestoNoSeImporta).
- Importacion.ImportadorDatos.Importar: the same narrowing of the defence date's `date` rule applies to every row.
- Validaciones.ValidarCertificacion: the `date` rule of the issue date is Reglas.LeerFecha, with the same narrowing. The narrowing of the grades' `numeric` rule (Reglas.EsNota) applies too.
- Validaciones.ValidarTesis: the `date` rule of the defence date is Reglas.LeerFecha, with the same narrowing. The narrowing of the grades' `numeric` rule (Reglas.EsNota) applies too.
- Importacion.ImportadorDatos.ProcesarRenglon: a row counts as empty when its 24 named columns are all empty. SkipsEmptyRows skips a row only when every cell of the sheet row is empty, so a row with data only in another column fails `required` and is listed as an error in the source; the model skips it.
- Importacion.ImportadorDatos.Importar: the same test of emptiness over the 24 named columns applies to every row of the sheet.
- Reglas.EsNota: the `numeric` rule of the grades is modelled as a plain decimal with an optional sign (Reglas.LeerDecimal). is_numeric also accepts an exponent ("1e1") and surrounding whitespace; such grades are refused by the model although the certificate and thesis forms and the import accept them.
- Expedientes.ActualizarCertificacion: the update goes through UpdateCertificacionRequest, whose rules are not part of this model; the model assumes they are the store rules (Validaciones.ValidarCertificacion).
- Expedientes.ActualizarTesis: the update goes through UpdateTesisRequest, whose rules are not part of this model; the model assumes they are the store rules (Validaciones.ValidarTesis).
- Validaciones.EsCorreo: accepts any text with exactly one '@' and text on both sides. The full address grammar of the `email` rule is weaker in the model.
- Reportes.ResumenDefensas: the result is the list of lines only. The title is left out; it is taken from the first line's program name, the same defect as the per-program summary listed under Findings.
- Visitas.ContadorDeVisitas.Manejar: `updated_at` is not modelled, and the next handler is the identity.

## Findings

| source | as written | input that shows it | evidently intended | confidence | as-written member | corrected member |
|---|---|---|---|---|---|---|
| app/Http/Requests/UpdateGestionRequest.php:222-223 | the request's 'Y-m-d' text is compared with the stored Carbon date, which PHP turns into 'Y-m-d H:i:s' text, so an unchanged end date compares smaller than itself | a term with data running 2024-03-01 to 2024-06-30, edited to start 2024-02-15 and end 2024-06-30: a pure extension, rejected as a reduction | reject only a later start or an earlier end | not executed | SolicitudesGestion.ReduccionComoEscrita, SolicitudesGestion.ExtensionRechazadaComoEscrita | SolicitudesGestion.Reduccion, SolicitudesGestion.ReduccionSoloAlAcortar |
| app/Services/GestionService.php:64-78 | the bulk update clears `es_actual` in the table but not on the loaded model, so `update(['es_actual' => true])` does not write the flag when the term was already current | activating the term that is already the current one | the term ends current and no other term is current | not executed | Gestiones.ActivarComoEscrito, Gestiones.ActivarComoEscritoPierdeActual | Gestiones.Activar |
| app/Http/Controllers/ReportController.php:157-161 | the report's faculty title is the `nombre` of the first line, and that field holds the program name | a faculty whose first program is named differently from the faculty | the faculty name of the first program, or 'Todas las Facultades' | not executed | Reportes.TituloComoEscrito, Reportes.TituloComoEscritoNombraPrograma | Reportes.Titulo |
