/**
 * The batches of uploaded spreadsheets (app/Models/CargaExcel.php): a table
 * whose rows move through pendiente → procesando → completado | error, with
 * the import's counters and a processing summary kept as a JSON object.
 * Timestamps are opaque numbers supplied by the caller.
 */
module Cargas {
  import opened Wrappers
  import opened Texto
  import opened Consultas
  import opened Importacion
  import opened Reglas

  /** The `estado` column: pendiente, procesando, completado, error. */
  datatype EstadoCarga = Pendiente | Procesando | Completado | Error

  /** One value of the `resumen_procesamiento` JSON object. */
  datatype ValorResumen = Numero(n: nat) | Cadena(s: string) | Errores(errores: seq<ErrorFila>)

  type Resumen = map<string, ValorResumen>

  datatype Carga = Carga(
    id: nat,
    nombreArchivo: string,
    rutaArchivo: string,
    descripcion: Option<string>,
    estado: EstadoCarga,
    procesados: nat,
    exitosos: nat,
    conError: nat,
    resumen: Option<Resumen>,
    fechaProcesamiento: Option<nat>,
    userId: nat,
    gestionId: nat)

  /**
   * The summary marcarComoError saves: the existing summary (an empty one
   * when null), with the key 'error' set to the message when the message is
   * truthy.
   */
  function ResumenConError(resumen: Option<Resumen>, error: Option<string>): (r: Resumen)
    ensures forall k :: k in r && k != "error" <==> resumen.Some? && k in resumen.value && k != "error"
    ensures forall k :: k in r && k != "error" ==> r[k] == resumen.value[k]
    ensures Veraz(error) ==> "error" in r && r["error"] == Cadena(error.value)
    ensures !Veraz(error) ==> r == resumen.GetOr(map[])
  {
    var base := resumen.GetOr(map[]);
    if Veraz(error) then base["error" := Cadena(error.value)] else base
  }

  /** Marking a batch as failed twice keeps the later truthy message and the rest of the summary. */
  lemma ResumenConErrorUltimoGana(resumen: Option<Resumen>, e1: Option<string>, e2: Option<string>)
    requires Veraz(e2)
    ensures ResumenConError(Some(ResumenConError(resumen, e1)), e2) == ResumenConError(resumen, e2)
  {
    var a := ResumenConError(Some(ResumenConError(resumen, e1)), e2);
    var b := ResumenConError(resumen, e2);
    assert forall k :: k in a <==> k in b;
  }

  // Scopes

  predicate EstaCompletada(c: Carga) { c.estado == Completado }

  predicate TieneError(c: Carga) { c.estado == Error }

  function CargasCompletadas(s: seq<Carga>): (r: seq<Carga>)
    ensures forall c :: c in r <==> c in s && c.estado == Completado
  {
    Seleccionar(s, EstaCompletada)
  }

  function CargasConError(s: seq<Carga>): (r: seq<Carga>)
    ensures forall c :: c in r <==> c in s && c.estado == Error
  {
    Seleccionar(s, TieneError)
  }

  /** A batch is never both completed and failed, so the two scopes share no row. */
  lemma ScopesDisjuntos(s: seq<Carga>)
    ensures forall c :: !(c in CargasCompletadas(s) && c in CargasConError(s))
    ensures |CargasCompletadas(s)| + |CargasConError(s)| <= |s|
  {
    ContarTres(s, EstaCompletada, TieneError, (c: Carga) => c.estado != Completado && c.estado != Error);
  }

  ghost predicate IdsCargas(s: seq<Carga>, proximo: nat) {
    (forall i :: 0 <= i < |s| ==> s[i].id < proximo)
    && forall i, j :: 0 <= i < j < |s| ==> s[i].id != s[j].id
  }

  /** The `cargas_excel` table. Rows are addressed by position. */
  class TablaCargas {
    var filas: seq<Carga>
    var proximoId: nat

    ghost predicate Valid()
      reads this
    {
      IdsCargas(filas, proximoId)
    }

    constructor()
      ensures Valid() && filas == []
    {
      filas := [];
      proximoId := 1;
    }

    /**
     * CargaExcel::create with the columns the upload fills; the others take
     * the migration's defaults: no counts, no summary, no processing date.
     */
    method Crear(nombreArchivo: string, rutaArchivo: string, descripcion: Option<string>, estado: EstadoCarga,
                 userId: nat, gestionId: nat)
      returns (c: Carga)
      requires Valid()
      modifies this
      ensures Valid()
      ensures c == Carga(old(proximoId), nombreArchivo, rutaArchivo, descripcion, estado, 0, 0, 0, None, None, userId,
                         gestionId)
      ensures filas == old(filas) + [c]
    {
      c := Carga(proximoId, nombreArchivo, rutaArchivo, descripcion, estado, 0, 0, 0, None, None, userId, gestionId);
      filas := filas + [c];
      proximoId := proximoId + 1;
    }

    /** marcarComoProcesando(): the state and the processing time change, nothing else. */
    method MarcarComoProcesando(k: nat, ahora: nat)
      requires Valid() && k < |filas|
      modifies this
      ensures Valid()
      ensures filas == old(filas)[k := old(filas)[k].(estado := Procesando, fechaProcesamiento := Some(ahora))]
    {
      filas := filas[k := filas[k].(estado := Procesando, fechaProcesamiento := Some(ahora))];
    }

    /** marcarComoCompletado($resumen): the state and the summary, which is replaced whole. */
    method MarcarComoCompletado(k: nat, resumen: Resumen)
      requires Valid() && k < |filas|
      modifies this
      ensures Valid()
      ensures filas == old(filas)[k := old(filas)[k].(estado := Completado, resumen := Some(resumen))]
    {
      filas := filas[k := filas[k].(estado := Completado, resumen := Some(resumen))];
    }

    /** marcarComoError($error): the state, and the summary with the message added when it is truthy. */
    method MarcarComoError(k: nat, error: Option<string>)
      requires Valid() && k < |filas|
      modifies this
      ensures Valid()
      ensures filas == old(filas)[k := old(filas)[k].(estado := Error,
                                                       resumen := Some(ResumenConError(old(filas)[k].resumen, error)))]
    {
      var resumen := ResumenConError(filas[k].resumen, error);
      filas := filas[k := filas[k].(estado := Error, resumen := Some(resumen))];
    }

    /** actualizarContadores: exactly the three counters are overwritten. */
    method ActualizarContadores(k: nat, procesados: nat, exitosos: nat, conError: nat)
      requires Valid() && k < |filas|
      modifies this
      ensures Valid()
      ensures filas == old(filas)[k := old(filas)[k].(procesados := procesados, exitosos := exitosos,
                                                       conError := conError)]
    {
      filas := filas[k := filas[k].(procesados := procesados, exitosos := exitosos, conError := conError)];
    }

    /** $carga->delete(): the row goes; the others stay, in order. */
    method Eliminar(k: nat)
      requires Valid() && k < |filas|
      modifies this
      ensures Valid()
      ensures filas == old(filas)[..k] + old(filas)[k + 1..]
    {
      filas := filas[..k] + filas[k + 1..];
      assert forall i :: 0 <= i < |filas| ==> filas[i] in old(filas);
      forall i, j | 0 <= i < j < |filas|
        ensures filas[i].id != filas[j].id
      {
        var a := if i < k then i else i + 1;
        var b := if j < k then j else j + 1;
        assert filas[i] == old(filas)[a] && filas[j] == old(filas)[b];
      }
    }
  }
}
