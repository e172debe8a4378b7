/**
 * The spreadsheet endpoints of app/Http/Controllers/ExcelController.php:
 * uploading a file creates a pending batch of the current term, processing
 * steps the batch through its states around the import, deleting removes the
 * batch and its academic rows, and the index counts batches by outcome.
 * Storage and the spreadsheet reader are replaced by their outcomes, passed
 * in: whether the stored file exists, and the exception reading it throws.
 */
module ExcelControlador {
  import opened Wrappers
  import opened Texto
  import opened Fechas
  import opened Reglas
  import opened Consultas
  import opened Registros
  import opened Tablas
  import opened Importacion
  import opened Cargas

  // upload

  /** An uploaded file as the validator sees it: its original name, its extension and its size in kilobytes. */
  datatype Archivo = Archivo(nombreOriginal: string, extension: string, tamanoKb: nat)

  const ExtensionesPermitidas: seq<string> := ["xlsx", "xls", "csv"]
  const TamanoMaximoKb: nat := 10240
  const LargoMaximoDescripcion: nat := 500

  /**
   * The upload's validation: the message of the first rule the request
   * breaks (the file is required, must be a spreadsheet or CSV, at most
   * 10 MB; the description at most 500 characters), or none.
   */
  function ErrorSubida(archivo: Option<Archivo>, descripcion: Option<string>): (r: Option<string>)
    ensures r.None? <==>
      archivo.Some? && archivo.value.extension in ExtensionesPermitidas && archivo.value.tamanoKb <= TamanoMaximoKb
      && MaxLargo(descripcion, LargoMaximoDescripcion)
  {
    if archivo.None? then Some("Debe seleccionar un archivo.")
    else if archivo.value.extension !in ExtensionesPermitidas then
      Some("El archivo debe ser de tipo Excel (.xlsx, .xls) o CSV.")
    else if archivo.value.tamanoKb > TamanoMaximoKb then Some("El archivo no puede ser mayor a 10MB.")
    else if !MaxLargo(descripcion, LargoMaximoDescripcion) then
      Some("El campo descripcion no debe ser mayor que 500 caracteres.")
    else None
  }

  const SinGestionActiva := "No hay una gestión académica activa. No se puede subir el archivo."

  /** Where the file is stored: the upload time, an underscore and the original name, under excel_uploads/. */
  function RutaArchivo(marca: nat, nombreOriginal: string): (r: string)
    ensures EmpiezaCon(r, "excel_uploads/")
    ensures |nombreOriginal| <= |r| && r[|r| - |nombreOriginal|..] == nombreOriginal
  {
    var r := "excel_uploads/" + MostrarNat(marca) + "_" + nombreOriginal;
    assert r[..|"excel_uploads/"|] == "excel_uploads/";
    r
  }

  /**
   * upload(): without a current term, or with a request the validation
   * rejects, no batch is created; otherwise the file is stored (which may
   * throw `fallaAlmacenar`, again creating nothing) and a pending batch is
   * created for the current term and the uploading user.
   */
  method Subir(cargas: TablaCargas, gestionActual: Option<nat>, archivo: Option<Archivo>, descripcion: Option<string>,
               userId: nat, marca: nat, fallaAlmacenar: Option<string>)
    returns (r: Result<Carga>)
    requires cargas.Valid()
    modifies cargas
    ensures cargas.Valid()
    ensures gestionActual.None? ==> r == Failure(SinGestionActiva)
    ensures gestionActual.Some? && ErrorSubida(archivo, descripcion).Some? ==>
      r == Failure(ErrorSubida(archivo, descripcion).value)
    ensures gestionActual.Some? && ErrorSubida(archivo, descripcion).None? && fallaAlmacenar.Some? ==>
      r == Failure("Error al subir el archivo: " + fallaAlmacenar.value)
    ensures r.Failure? <==> cargas.filas == old(cargas.filas)
    ensures r.Success? ==>
      gestionActual.Some? && ErrorSubida(archivo, descripcion).None? && fallaAlmacenar.None?
      && r.value.estado == Pendiente && r.value.gestionId == gestionActual.value && r.value.userId == userId
      && r.value.nombreArchivo == archivo.value.nombreOriginal
      && r.value.rutaArchivo == RutaArchivo(marca, archivo.value.nombreOriginal)
      && r.value.descripcion == descripcion
      && cargas.filas == old(cargas.filas) + [r.value]
  {
    if gestionActual.None? {
      return Failure(SinGestionActiva);
    }
    var error := ErrorSubida(archivo, descripcion);
    if error.Some? {
      return Failure(error.value);
    }
    if fallaAlmacenar.Some? {
      return Failure("Error al subir el archivo: " + fallaAlmacenar.value);
    }
    var ruta := RutaArchivo(marca, archivo.value.nombreOriginal);
    var carga := cargas.Crear(archivo.value.nombreOriginal, ruta, descripcion, Pendiente, userId, gestionActual.value);
    r := Success(carga);
  }

  // procesar

  const ArchivoInexistente := "El archivo no existe en el sistema."

  /** The summary a completed batch keeps: the three counts, the errors and the time of processing. */
  function ResumenFinal(procesados: nat, exitosos: nat, conError: nat, errores: seq<ErrorFila>, ahoraTexto: string)
    : (r: Resumen)
    ensures r.Keys == {"registros_procesados", "registros_exitosos", "registros_con_error", "errores",
                       "fecha_procesamiento"}
    ensures r["registros_procesados"] == Numero(procesados) && r["registros_exitosos"] == Numero(exitosos)
    ensures r["registros_con_error"] == Numero(conError) && r["errores"] == Errores(errores)
  {
    map["registros_procesados" := Numero(procesados), "registros_exitosos" := Numero(exitosos),
        "registros_con_error" := Numero(conError), "errores" := Errores(errores),
        "fecha_procesamiento" := Cadena(ahoraTexto)]
  }

  /** The success message quotes the number of imported rows. */
  function MensajeProcesado(exitosos: nat): (r: string)
    ensures EmpiezaCon(r, "Archivo procesado correctamente. ")
  {
    var r := "Archivo procesado correctamente. " + MostrarNat(exitosos) + " registros importados.";
    assert r[..|"Archivo procesado correctamente. "|] == "Archivo procesado correctamente. ";
    r
  }

  /**
   * `new DatosAcademicosImport($carga)` run over the rows: the importer's
   * final counters and errors.
   */
  method Ejecutar(db: BaseDatos, cargaId: nat, gestionId: nat, rs: seq<Renglon>, anio: nat, serial: string -> Fecha)
    returns (procesados: nat, exitosos: nat, conError: nat, errores: seq<ErrorFila>)
    requires db.Valid()
    modifies db.programas, db.docentes, db.datos, db.certificaciones, db.tesis
    ensures db.Valid()
    ensures procesados == Contar(rs, EsProcesado) && exitosos == Exitosos(rs, serial)
    ensures procesados == exitosos + conError && |errores| == conError
    ensures old(db.datos.filas) <= db.datos.filas
    ensures forall i :: |old(db.datos.filas)| <= i < |db.datos.filas| ==> db.datos.filas[i].cargaId == cargaId
  {
    var importador := new ImportadorDatos(cargaId, gestionId);
    importador.Importar(db, rs, anio, serial);
    procesados, exitosos, conError, errores :=
      importador.procesados, importador.exitosos, importador.conError, importador.errores;
  }

  /**
   * The import of batch `k` and its bookkeeping, once the file is known to
   * be readable: the importer runs over the rows, the batch takes its
   * counters, then its summary and the state completado.
   */
  method Importar(cargas: TablaCargas, k: nat, db: BaseDatos, rs: seq<Renglon>, anio: nat,
                  serial: string -> Fecha, ahoraTexto: string)
    returns (exitosos: nat)
    requires cargas.Valid() && db.Valid() && k < |cargas.filas|
    modifies cargas, db.programas, db.docentes, db.datos, db.certificaciones, db.tesis
    ensures cargas.Valid() && db.Valid()
    ensures exitosos == Exitosos(rs, serial)
    ensures |cargas.filas| == |old(cargas.filas)|
    ensures forall i :: 0 <= i < |cargas.filas| && i != k ==> cargas.filas[i] == old(cargas.filas)[i]
    ensures var c := cargas.filas[k];
      c.estado == Completado && c.procesados == Contar(rs, EsProcesado) && c.exitosos == Exitosos(rs, serial)
      && c.procesados == c.exitosos + c.conError
      && c.resumen.Some? && "registros_exitosos" in c.resumen.value
      && c.resumen.value["registros_exitosos"] == Numero(c.exitosos)
      && c == old(cargas.filas)[k].(estado := Completado, procesados := c.procesados, exitosos := c.exitosos,
                                    conError := c.conError, resumen := c.resumen)
    ensures old(db.datos.filas) <= db.datos.filas
    ensures forall i :: |old(db.datos.filas)| <= i < |db.datos.filas| ==>
      db.datos.filas[i].cargaId == old(cargas.filas)[k].id
  {
    var procesados, conError, errores;
    procesados, exitosos, conError, errores := Ejecutar(db, cargas.filas[k].id, cargas.filas[k].gestionId, rs, anio,
                                                        serial);
    cargas.ActualizarContadores(k, procesados, exitosos, conError);
    cargas.MarcarComoCompletado(k, ResumenFinal(procesados, exitosos, conError, errores, ahoraTexto));
  }

  /**
   * procesar(): the batch is marked as processing; a missing file or an
   * exception from the reader (`fallaLectura`, thrown before any row is
   * stored) marks it as failed with that message; otherwise the import runs
   * and the batch ends completed with the importer's counts.
   */
  method Procesar(cargas: TablaCargas, k: nat, db: BaseDatos, existe: bool, fallaLectura: Option<string>,
                  rs: seq<Renglon>, anio: nat, serial: string -> Fecha, ahora: nat, ahoraTexto: string)
    returns (r: Result<string>)
    requires cargas.Valid() && db.Valid() && k < |cargas.filas|
    modifies cargas, db.programas, db.docentes, db.datos, db.certificaciones, db.tesis
    ensures cargas.Valid() && db.Valid()
    ensures |cargas.filas| == |old(cargas.filas)|
    ensures forall i :: 0 <= i < |cargas.filas| && i != k ==> cargas.filas[i] == old(cargas.filas)[i]
    ensures cargas.filas[k].fechaProcesamiento == Some(ahora)
    ensures r.Success? <==> existe && fallaLectura.None?
    ensures r.Success? ==>
      r.value == MensajeProcesado(Exitosos(rs, serial))
      && cargas.filas[k].estado == Completado
      && cargas.filas[k].procesados == Contar(rs, EsProcesado) && cargas.filas[k].exitosos == Exitosos(rs, serial)
    ensures !existe ==>
      r == Failure("Error al procesar el archivo: " + ArchivoInexistente)
      && cargas.filas[k].estado == Error
      && cargas.filas[k].resumen == Some(ResumenConError(old(cargas.filas)[k].resumen, Some(ArchivoInexistente)))
    ensures existe && fallaLectura.Some? ==>
      r == Failure("Error al procesar el archivo: " + fallaLectura.value)
      && cargas.filas[k].estado == Error
      && cargas.filas[k].resumen == Some(ResumenConError(old(cargas.filas)[k].resumen, fallaLectura))
    ensures r.Failure? ==> db.datos.filas == old(db.datos.filas)
  {
    cargas.MarcarComoProcesando(k, ahora);
    if !existe {
      cargas.MarcarComoError(k, Some(ArchivoInexistente));
      return Failure("Error al procesar el archivo: " + ArchivoInexistente);
    }
    if fallaLectura.Some? {
      cargas.MarcarComoError(k, fallaLectura);
      return Failure("Error al procesar el archivo: " + fallaLectura.value);
    }
    var exitosos := Importar(cargas, k, db, rs, anio, serial, ahoraTexto);
    r := Success(MensajeProcesado(exitosos));
  }

  // destroy

  /**
   * destroy(): every academic row of batch `k` is deleted, then the batch;
   * rows of other batches stay.
   */
  method Eliminar(cargas: TablaCargas, k: nat, datos: TablaDatos)
    requires cargas.Valid() && datos.Valid() && k < |cargas.filas|
    modifies cargas, datos
    ensures cargas.Valid() && datos.Valid()
    ensures cargas.filas == old(cargas.filas)[..k] + old(cargas.filas)[k + 1..]
    ensures forall d :: d in datos.filas <==> d in old(datos.filas) && d.cargaId != old(cargas.filas)[k].id
  {
    datos.EliminarDeCarga(cargas.filas[k].id);
    cargas.Eliminar(k);
  }

  // index

  datatype Estadisticas = Estadisticas(totalCargas: nat, cargasExitosas: nat, cargasError: nat,
                                       registrosProcesados: nat)

  function SumaProcesados(s: seq<Carga>): nat {
    if s == [] then 0 else s[0].procesados + SumaProcesados(s[1..])
  }

  /** Every batch counts its processed rows in the sum. */
  lemma {:induction false} SumaAcota(s: seq<Carga>, i: nat)
    requires i < |s|
    ensures s[i].procesados <= SumaProcesados(s)
  {
    if i > 0 {
      SumaAcota(s[1..], i - 1);
    }
  }

  lemma SumaAcotaTodas(s: seq<Carga>)
    ensures forall c :: c in s ==> c.procesados <= SumaProcesados(s)
  {
    forall c | c in s ensures c.procesados <= SumaProcesados(s) {
      var i :| 0 <= i < |s| && s[i] == c;
      SumaAcota(s, i);
    }
  }

  predicate DeGestion(gestionId: nat, c: Carga) { c.gestionId == gestionId }

  /** The batches the statistics range over: the current term's when one is cached, otherwise all. */
  function CargasEnContexto(s: seq<Carga>, gestionActual: Option<nat>): (r: seq<Carga>)
    ensures gestionActual.None? ==> r == s
    ensures forall c :: c in r <==> c in s && (gestionActual.Some? ==> c.gestionId == gestionActual.value)
  {
    if gestionActual.None? then s else Seleccionar(s, (c: Carga) => DeGestion(gestionActual.value, c))
  }

  /**
   * The index statistics: the batches in context, the completed ones as
   * successes, the failed ones as errors, and the processed rows summed.
   */
  function EstadisticasIndice(s: seq<Carga>, gestionActual: Option<nat>): (r: Estadisticas)
    ensures r.totalCargas == |CargasEnContexto(s, gestionActual)|
    ensures r.cargasExitosas == |CargasCompletadas(CargasEnContexto(s, gestionActual))|
    ensures r.cargasError == |CargasConError(CargasEnContexto(s, gestionActual))|
    ensures r.cargasExitosas + r.cargasError <= r.totalCargas
    ensures r.registrosProcesados == SumaProcesados(CargasEnContexto(s, gestionActual))
    ensures forall c :: c in CargasEnContexto(s, gestionActual) ==> c.procesados <= r.registrosProcesados
  {
    var enContexto := CargasEnContexto(s, gestionActual);
    ScopesDisjuntos(enContexto);
    SumaAcotaTodas(enContexto);
    Estadisticas(|enContexto|, |CargasCompletadas(enContexto)|, |CargasConError(enContexto)|,
                 SumaProcesados(enContexto))
  }
}
