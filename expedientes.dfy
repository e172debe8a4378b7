/**
 * The certificate and thesis controllers (CertificacionController.php,
 * TesisController.php): create from a validated form with an automatic
 * number, edit, delete, and the two status changes `emitir` and `aprobar`.
 * The current academic period and today's date are parameters.
 */
module Expedientes {
  import opened Wrappers
  import opened Fechas
  import opened Consultas
  import opened Registros
  import opened Tablas
  import opened Validaciones

  /** The status options the certificate screens offer, in order, with their labels. */
  function EstadosDisponiblesCertificacion(): (r: seq<(string, string)>)
    ensures |r| == |EstadosCertificacion| && forall i :: 0 <= i < |r| ==> r[i].0 == EstadosCertificacion[i]
  {
    [("pendiente", "Pendiente"), ("emitido", "Emitido"), ("entregado", "Entregado")]
  }

  /** The status options the thesis screens offer, in order, with their labels. */
  function EstadosDisponiblesTesis(): (r: seq<(string, string)>)
    ensures |r| == |EstadosTesis| && forall i :: 0 <= i < |r| ==> r[i].0 == EstadosTesis[i]
  {
    [("en_desarrollo", "En Desarrollo"), ("defendida", "Defendida"), ("aprobada", "Aprobada"), ("rechazada", "Rechazada")]
  }

  // Certificates

  /** The row Certificacion::create receives from a validated form, a number and the current period. */
  function AltaCertificacion(v: CertificacionValidada, numero: string, gestionId: nat, anio: nat): Certificacion {
    Certificacion(0, numero, Some(v.nroRegistroEst), Some(v.nombreEst), Some(v.generoEst), v.nota, v.notaDefensa,
                  v.fechaDefensa, None, None, v.estado, v.programaId, Some(gestionId), anio)
  }

  /** `$certificacion->update($request->validated())`: the form's fields overwrite the row's. */
  function EdicionCertificacion(c: Certificacion, v: CertificacionValidada): Certificacion {
    c.(nroRegistroEst := Some(v.nroRegistroEst), nombreEst := Some(v.nombreEst), generoEst := Some(v.generoEst),
       nota := v.nota, notaDefensa := v.notaDefensa, fechaDefensa := v.fechaDefensa, estado := v.estado,
       programaId := v.programaId)
  }

  /** `emitir`: the state and the issue date. */
  function Emitida(c: Certificacion, hoy: Fecha): Certificacion {
    c.(estado := "emitido", fechaEmision := Some(hoy))
  }

  /**
   * A certificate saved from a valid form, with its average recomputed, has
   * its grades and its average between 0.00 and 100.00; when one grade is
   * missing the average is the one the row already had.
   */
  lemma PromedioDeFormulario(c: Certificacion, s: SolicitudCertificacion, programas: seq<nat>)
    requires CertificacionValida(s, programas)
    requires c.promedio.Some? ==> 0 <= c.promedio.value <= 10000
    ensures var r := ConPromedio(EdicionCertificacion(c, ValidarCertificacion(s, programas)));
      && (r.nota.Some? ==> 0 <= r.nota.value <= 10000)
      && (r.notaDefensa.Some? ==> 0 <= r.notaDefensa.value <= 10000)
      && (r.promedio.Some? ==> 0 <= r.promedio.value <= 10000)
      && (r.nota.None? || r.notaDefensa.None? ==> r.promedio == c.promedio)
  {
    var v := ValidarCertificacion(s, programas);
    var e := EdicionCertificacion(c, v);
    if e.nota.Some? && e.notaDefensa.Some? {
      assert 0 <= Promedio(e.nota.value, e.notaDefensa.value) <= 10000;
    }
  }

  /** Issuing a certificate not yet issued adds exactly one row to the issued scope. */
  lemma {:induction false} EmitirSumaEmitida(s: seq<Certificacion>, k: nat, hoy: Fecha)
    requires k < |s|
    ensures |CertificacionesEmitidas(s[k := Emitida(s[k], hoy)])|
         == |CertificacionesEmitidas(s)| + (if s[k].estado == "emitido" then 0 else 1)
  {
    ContarCambiar(s, k, Emitida(s[k], hoy), (c: Certificacion) => c.estado == "emitido");
  }

  /**
   * store: the certificate is numbered CERT-<año>-NNNN after this year's
   * count, tied to the current period, appended, and its average computed.
   * Without a current period `gestion_id` would be NULL, which the NOT NULL
   * column refuses: the insert fails and nothing is stored. A table
   * numbered in order stays so.
   */
  method GuardarCertificacion(t: TablaCertificaciones, v: CertificacionValidada, gestionActual: Option<nat>, anio: nat)
    returns (c: Option<Certificacion>)
    requires t.Valid()
    modifies t
    ensures t.Valid()
    ensures gestionActual.None? ==> c.None? && t.filas == old(t.filas) && t.proximoId == old(t.proximoId)
    ensures gestionActual.Some? ==> && c.Some?
                                    && t.filas == old(t.filas) + [c.value] && t.proximoId == old(t.proximoId) + 1
    ensures gestionActual.Some? ==>
      c.value == ConPromedio(AltaCertificacion(v, NumeroCertificacion(old(t.filas), anio), gestionActual.value, anio)
                               .(id := old(t.proximoId)))
    ensures c.Some? ==> c.value.gestionId == gestionActual
    ensures NumeradasEnOrden(old(t.filas)) ==> NumeradasEnOrden(t.filas)
  {
    if gestionActual.None? {
      return None;
    }
    ghost var antes := t.filas;
    var numero := NumeroCertificacion(t.filas, anio);
    var creada := t.Crear(AltaCertificacion(v, numero, gestionActual.value, anio));
    t.CalcularPromedio(|t.filas| - 1);
    var guardada := ConPromedio(creada);
    assert t.filas == antes + [guardada];
    if NumeradasEnOrden(antes) {
      AgregarNumerada(antes, guardada);
    }
    c := Some(guardada);
  }

  /** update: the form's fields are written, then the average is recomputed; the other rows stay. */
  method ActualizarCertificacion(t: TablaCertificaciones, k: nat, v: CertificacionValidada)
    requires t.Valid() && k < |t.filas|
    modifies t
    ensures t.Valid()
    ensures t.filas == old(t.filas)[k := ConPromedio(EdicionCertificacion(old(t.filas)[k], v))]
  {
    t.Reemplazar(k, EdicionCertificacion(t.filas[k], v));
    t.CalcularPromedio(k);
  }

  /** emitir: the certificate becomes 'emitido', dated today, and is listed among the issued ones. */
  method EmitirCertificacion(t: TablaCertificaciones, k: nat, hoy: Fecha)
    requires t.Valid() && k < |t.filas|
    modifies t
    ensures t.Valid()
    ensures t.filas == old(t.filas)[k := Emitida(old(t.filas)[k], hoy)]
    ensures t.filas[k] in CertificacionesEmitidas(t.filas)
  {
    t.Reemplazar(k, Emitida(t.filas[k], hoy));
  }

  /** destroy: the certificate is deleted, the others stay in order. */
  method EliminarCertificacion(t: TablaCertificaciones, k: nat)
    requires t.Valid() && k < |t.filas|
    modifies t
    ensures t.Valid()
    ensures t.filas == old(t.filas)[..k] + old(t.filas)[k + 1..]
  {
    t.Eliminar(k);
  }

  // Theses

  /** The row Tesis::create receives from a validated form, a code and the current period. */
  function AltaTesis(v: TesisValidada, codigo: string, gestionId: nat, anio: nat): Tesis {
    Tesis(0, codigo, Some(v.titulo), Some(v.nroRegistroEst), Some(v.nombreEst), v.fechaDefensa, v.notaDefensa, v.estado,
          v.tutorId, v.programaId, Some(gestionId), anio)
  }

  /** `$tesis->update($request->validated())`. */
  function EdicionTesis(t: Tesis, v: TesisValidada): Tesis {
    t.(titulo := Some(v.titulo), nroRegistroEst := Some(v.nroRegistroEst), nombreEst := Some(v.nombreEst),
       fechaDefensa := v.fechaDefensa, notaDefensa := v.notaDefensa, estado := v.estado, tutorId := v.tutorId,
       programaId := v.programaId)
  }

  /** Approving a thesis not yet approved adds exactly one row to the approved scope and takes it from no other. */
  lemma {:induction false} AprobarSumaAprobada(s: seq<Tesis>, k: nat)
    requires k < |s|
    ensures |TesisAprobadas(s[k := s[k].(estado := "aprobada")])|
         == |TesisAprobadas(s)| + (if s[k].estado == "aprobada" then 0 else 1)
    ensures |TesisDefendidas(s[k := s[k].(estado := "aprobada")])| + (if s[k].estado == "defendida" then 1 else 0)
         == |TesisDefendidas(s)|
  {
    ContarCambiar(s, k, s[k].(estado := "aprobada"), (t: Tesis) => t.estado == "aprobada");
    ContarCambiar(s, k, s[k].(estado := "aprobada"), (t: Tesis) => t.estado == "defendida");
  }

  /** Deleting a thesis of year `anio` gives the next thesis of that year the code the last one already has. */
  lemma CodigoTrasEliminar(s: seq<Tesis>, k: nat, anio: nat)
    requires k < |s| && s[k].anio == anio
    ensures CodigoTesis(s[..k] + s[k + 1..], anio) == Secuencial("TESIS", anio, Contar(s, (t: Tesis) => t.anio == anio))
  {
    ContarQuitar(s, k, (t: Tesis) => t.anio == anio);
  }

  /**
   * store: the thesis is coded TESIS-<año>-NNNN after this year's count and
   * tied to the current period; without one the NOT NULL `gestion_id`
   * refuses the insert and nothing is stored.
   */
  method GuardarTesis(t: TablaTesis, v: TesisValidada, gestionActual: Option<nat>, anio: nat) returns (r: Option<Tesis>)
    requires t.Valid()
    modifies t
    ensures t.Valid()
    ensures gestionActual.None? ==> r.None? && t.filas == old(t.filas) && t.proximoId == old(t.proximoId)
    ensures gestionActual.Some? ==> && r.Some?
                                    && t.filas == old(t.filas) + [r.value] && t.proximoId == old(t.proximoId) + 1
    ensures gestionActual.Some? ==>
      r.value == AltaTesis(v, CodigoTesis(old(t.filas), anio), gestionActual.value, anio).(id := old(t.proximoId))
    ensures r.Some? ==> r.value.gestionId == gestionActual
  {
    if gestionActual.None? {
      return None;
    }
    var codigo := CodigoTesis(t.filas, anio);
    var creada := t.Crear(AltaTesis(v, codigo, gestionActual.value, anio));
    r := Some(creada);
  }

  /** update: the form's fields are written; the code, period and year stay. */
  method ActualizarTesis(t: TablaTesis, k: nat, v: TesisValidada)
    requires t.Valid() && k < |t.filas|
    modifies t
    ensures t.Valid()
    ensures t.filas == old(t.filas)[k := EdicionTesis(old(t.filas)[k], v)]
  {
    t.Reemplazar(k, EdicionTesis(t.filas[k], v));
  }

  /** aprobar: only the state changes, to 'aprobada'. */
  method AprobarTesis(t: TablaTesis, k: nat)
    requires t.Valid() && k < |t.filas|
    modifies t
    ensures t.Valid()
    ensures t.filas == old(t.filas)[k := old(t.filas)[k].(estado := "aprobada")]
    ensures t.filas[k] in TesisAprobadas(t.filas)
  {
    t.Reemplazar(k, t.filas[k].(estado := "aprobada"));
  }

  /** destroy: the thesis is deleted, the others stay in order. */
  method EliminarTesis(t: TablaTesis, k: nat)
    requires t.Valid() && k < |t.filas|
    modifies t
    ensures t.Valid()
    ensures t.filas == old(t.filas)[..k] + old(t.filas)[k + 1..]
  {
    t.Eliminar(k);
  }
}
