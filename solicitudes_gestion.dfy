/**
 * Validation of the term forms (app/Http/Requests/StoreGestionRequest.php and
 * app/Http/Requests/UpdateGestionRequest.php): the input is cleaned
 * (prepareForValidation), checked against the rule table, and then the
 * after-hook adds the overlap error and, on update, the current-term and
 * date-reduction errors.
 *
 * A date field counts as a date when Reglas.LeerFecha reads it: one of
 * strtotime's all-numeric forms ('Y-m-d', 'Y/m/d', 'm/d/Y', 'd-m-Y', 'd.m.Y')
 * naming a calendar day of years 1 to 9999. The date inputs send 'Y-m-d'.
 */
module SolicitudesGestion {
  import opened Wrappers
  import opened Texto
  import opened Fechas
  import opened LecturaFechas
  import opened ComparacionFechas
  import opened Gestiones
  import opened Reglas

  /** A scalar of the request body, as PHP receives it. */
  datatype Escalar = Booleano(b: bool) | Entero(n: int) | Cadena(s: string) | Nulo

  /** PHP's (bool) cast. */
  predicate Verdadero(e: Escalar) {
    match e
    case Booleano(b) => b
    case Entero(n) => n != 0
    case Cadena(s) => !VacioPhp(s)
    case Nulo => false
  }

  /**
   * The request fields the rules read. `None` is an absent or null key; a
   * `descripcion` of `Some(None)` is a key sent as null.
   */
  datatype Solicitud = Solicitud(
    nombre: Option<string>,
    descripcion: Option<Option<string>>,
    fechaInicio: Option<string>,
    fechaFin: Option<string>,
    estado: Option<string>,
    esActual: Option<Escalar>)

  /** prepareForValidation: `nombre` trimmed, `es_actual` cast to a boolean, each only when sent. */
  function Preparar(s: Solicitud): (p: Solicitud)
    ensures p.nombre.Some? <==> s.nombre.Some?
    ensures p.esActual.Some? <==> s.esActual.Some?
    ensures p.esActual.Some? ==> p.esActual.value.Booleano?
    ensures p.(nombre := s.nombre, esActual := s.esActual) == s
  {
    s.(nombre := if s.nombre.Some? then Some(Recortar(s.nombre.value)) else None,
       esActual := if s.esActual.Some? then Some(Booleano(Verdadero(s.esActual.value))) else None)
  }

  /** Preparing a prepared request changes nothing more. */
  lemma PrepararIdempotente(s: Solicitud)
    ensures Preparar(Preparar(s)) == Preparar(s)
  {
    if s.nombre.Some? {
      RecortarIdempotente(s.nombre.value);
    }
  }

  /** One failed rule: the field and the rule's name. */
  datatype Error = Error(campo: string, regla: string)

  /** `regex:/^\d{4}-(I|II)$/`. */
  predicate FormatoNombre(n: string) {
    |n| >= 6 && SoloDigitos(n[..4]) && n[4] == '-' && (n[5..] == "I" || n[5..] == "II")
  }

  /** Whether the form creates a term or edits the term `id`. */
  datatype Variante = Creacion | Edicion(id: nat)

  /** The oldest start date the rules allow: two years back on create, one on edit. */
  function InicioMinimo(v: Variante, hoy: Fecha): Fecha
    requires Valida(hoy)
  {
    if v.Creacion? then SumarAnios(hoy, -2) else SumarAnios(hoy, -1)
  }

  /** The latest end date the rules allow: five years ahead on create, two on edit. */
  function FinMaximo(v: Variante, hoy: Fecha): Fecha
    requires Valida(hoy)
  {
    if v.Creacion? then SumarAnios(hoy, 5) else SumarAnios(hoy, 2)
  }

  /** The rows the `unique` and overlap checks look at: all of them, or all but the edited one. */
  predicate Considerada(v: Variante, g: Gestion) {
    v.Creacion? || g.id != v.id
  }

  predicate NombreTomado(v: Variante, n: string, existentes: seq<Gestion>) {
    exists i :: 0 <= i < |existentes| && Considerada(v, existentes[i]) && existentes[i].nombre == n
  }

  function Si(c: bool, e: Error): seq<Error> {
    if c then [e] else []
  }

  predicate NombreValido(v: Variante, o: Option<string>, existentes: seq<Gestion>) {
    Requerido(o) && |o.value| <= 255 && !NombreTomado(v, o.value, existentes) && FormatoNombre(o.value)
  }

  function ErroresNombre(v: Variante, o: Option<string>, existentes: seq<Gestion>): (r: seq<Error>)
    ensures r == [] <==> NombreValido(v, o, existentes)
  {
    if !Requerido(o) then [Error("nombre", "required")]
    else
      Si(|o.value| > 255, Error("nombre", "max")) +
      Si(NombreTomado(v, o.value, existentes), Error("nombre", "unique")) +
      Si(!FormatoNombre(o.value), Error("nombre", "regex"))
  }

  predicate DescripcionValida(o: Option<Option<string>>) {
    o.Some? && o.value.Some? ==> |o.value.value| <= 500
  }

  function ErroresDescripcion(o: Option<Option<string>>): (r: seq<Error>)
    ensures r == [] <==> DescripcionValida(o)
  {
    if o.Some? && o.value.Some? then Si(|o.value.value| > 500, Error("descripcion", "max")) else []
  }

  predicate InicioValido(o: Option<string>, minimo: Fecha) {
    Requerido(o) && LeerFecha(o.value).Some? && AntesOIgual(minimo, LeerFecha(o.value).value)
  }

  function ErroresInicio(o: Option<string>, minimo: Fecha): (r: seq<Error>)
    ensures r == [] <==> InicioValido(o, minimo)
  {
    if !Requerido(o) then [Error("fecha_inicio", "required")]
    else
      var f := LeerFecha(o.value);
      Si(f.None?, Error("fecha_inicio", "date")) +
      Si(f.None? || Antes(f.value, minimo), Error("fecha_inicio", "after_or_equal"))
  }

  predicate FinValido(o: Option<string>, inicio: Option<Fecha>, maximo: Fecha) {
    Requerido(o) && LeerFecha(o.value).Some? &&
    (inicio.Some? ==> Antes(inicio.value, LeerFecha(o.value).value)) &&
    AntesOIgual(LeerFecha(o.value).value, maximo)
  }

  /**
   * `after:fecha_inicio` compares with the start date only when that is a
   * date; an absent or unreadable start date lets it pass.
   */
  function ErroresFin(o: Option<string>, inicio: Option<Fecha>, maximo: Fecha): (r: seq<Error>)
    ensures r == [] <==> FinValido(o, inicio, maximo)
  {
    if !Requerido(o) then [Error("fecha_fin", "required")]
    else
      var f := LeerFecha(o.value);
      Si(f.None?, Error("fecha_fin", "date")) +
      Si(f.None? || (inicio.Some? && AntesOIgual(f.value, inicio.value)), Error("fecha_fin", "after")) +
      Si(f.None? || Antes(maximo, f.value), Error("fecha_fin", "before_or_equal"))
  }

  predicate EstadoValido(o: Option<string>) {
    Requerido(o) && (o.value == "activo" || o.value == "inactivo")
  }

  function ErroresEstado(o: Option<string>): (r: seq<Error>)
    ensures r == [] <==> EstadoValido(o)
  {
    if !Requerido(o) then [Error("estado", "required")]
    else Si(o.value != "activo" && o.value != "inactivo", Error("estado", "in"))
  }

  /**
   * The rule table on a prepared request. `es_actual` has only the `boolean`
   * rule, which a prepared value always passes.
   */
  function ErroresReglas(v: Variante, p: Solicitud, existentes: seq<Gestion>, hoy: Fecha): seq<Error>
    requires Valida(hoy)
  {
    ErroresNombre(v, p.nombre, existentes) +
    ErroresDescripcion(p.descripcion) +
    ErroresInicio(p.fechaInicio, InicioMinimo(v, hoy)) +
    ErroresFin(p.fechaFin, FechaDe(p.fechaInicio), FinMaximo(v, hoy)) +
    ErroresEstado(p.estado)
  }

  /**
   * What the rule table demands: a unique name of the form YYYY-I or
   * YYYY-II of at most 255 characters, a description of at most 500, a start
   * date no earlier than the window allows, an end date after the start and
   * no later than the window allows, and an estado of 'activo' or 'inactivo'.
   */
  predicate CumpleReglas(v: Variante, p: Solicitud, existentes: seq<Gestion>, hoy: Fecha)
    requires Valida(hoy)
  {
    NombreValido(v, p.nombre, existentes) && DescripcionValida(p.descripcion) &&
    InicioValido(p.fechaInicio, InicioMinimo(v, hoy)) &&
    FinValido(p.fechaFin, FechaDe(p.fechaInicio), FinMaximo(v, hoy)) &&
    EstadoValido(p.estado)
  }

  /** The rule table reports no error exactly when the request meets every rule. */
  lemma ReglasSinErrores(v: Variante, p: Solicitud, existentes: seq<Gestion>, hoy: Fecha)
    requires Valida(hoy)
    ensures ErroresReglas(v, p, existentes, hoy) == [] <==> CumpleReglas(v, p, existentes, hoy)
  {
    var a := ErroresNombre(v, p.nombre, existentes);
    var b := ErroresDescripcion(p.descripcion);
    var c := ErroresInicio(p.fechaInicio, InicioMinimo(v, hoy));
    var d := ErroresFin(p.fechaFin, FechaDe(p.fechaInicio), FinMaximo(v, hoy));
    var e := ErroresEstado(p.estado);
    assert |a + b + c + d + e| == |a| + |b| + |c| + |d| + |e|;
  }

  /** No error on either date field. */
  predicate SinErrorDeFechas(errores: seq<Error>) {
    forall i :: 0 <= i < |errores| ==> errores[i].campo != "fecha_inicio" && errores[i].campo != "fecha_fin"
  }

  /** The three conditions of the overlap query on one row, each on closed intervals. */
  predicate SolapaCon(g: Gestion, inicio: Fecha, fin: Fecha) {
    (AntesOIgual(inicio, g.inicio) && AntesOIgual(g.inicio, fin)) ||
    (AntesOIgual(inicio, g.fin) && AntesOIgual(g.fin, fin)) ||
    (AntesOIgual(g.inicio, inicio) && AntesOIgual(fin, g.fin))
  }

  /** For well-formed intervals the query's three conditions say exactly that the closed intervals intersect. */
  lemma SolapaEsInterseccion(g: Gestion, inicio: Fecha, fin: Fecha)
    requires AntesOIgual(inicio, fin) && AntesOIgual(g.inicio, g.fin)
    ensures SolapaCon(g, inicio, fin) <==> AntesOIgual(g.inicio, fin) && AntesOIgual(inicio, g.fin)
  {
  }

  predicate HaySolapamiento(v: Variante, existentes: seq<Gestion>, inicio: Fecha, fin: Fecha) {
    exists i :: 0 <= i < |existentes| && Considerada(v, existentes[i]) && SolapaCon(existentes[i], inicio, fin)
  }

  /** The `exists()` query of validarSolapamientoFechas. */
  method BuscarSolapamiento(v: Variante, existentes: seq<Gestion>, inicio: Fecha, fin: Fecha) returns (hay: bool)
    ensures hay <==> HaySolapamiento(v, existentes, inicio, fin)
  {
    hay := false;
    var i := 0;
    while i < |existentes| && !hay
      invariant 0 <= i <= |existentes|
      invariant hay <==> exists k :: 0 <= k < i && Considerada(v, existentes[k]) && SolapaCon(existentes[k], inicio, fin)
    {
      hay := Considerada(v, existentes[i]) && SolapaCon(existentes[i], inicio, fin);
      i := i + 1;
    }
  }

  /**
   * validarSolapamientoFechas, run only when neither date field has an
   * error (so both are dates): adds one error on `fecha_inicio` when some
   * other term's dates intersect the requested ones.
   */
  method ValidarSolapamiento(v: Variante, p: Solicitud, existentes: seq<Gestion>, errores: seq<Error>)
    returns (r: seq<Error>)
    ensures !(SinErrorDeFechas(errores) && FechaDe(p.fechaInicio).Some? && FechaDe(p.fechaFin).Some?) ==> r == errores
    ensures SinErrorDeFechas(errores) && FechaDe(p.fechaInicio).Some? && FechaDe(p.fechaFin).Some? ==>
      r == errores + Si(HaySolapamiento(v, existentes, FechaDe(p.fechaInicio).value, FechaDe(p.fechaFin).value),
                        Error("fecha_inicio", "solapamiento"))
  {
    r := errores;
    var i := 0;
    var limpio := true;
    while i < |errores|
      invariant 0 <= i <= |errores|
      invariant limpio <==> SinErrorDeFechas(errores[..i])
    {
      assert errores[..i + 1] == errores[..i] + [errores[i]];
      limpio := limpio && errores[i].campo != "fecha_inicio" && errores[i].campo != "fecha_fin";
      i := i + 1;
    }
    assert errores[..i] == errores;
    var inicio, fin := FechaDe(p.fechaInicio), FechaDe(p.fechaFin);
    if limpio && inicio.Some? && fin.Some? {
      var hay := BuscarSolapamiento(v, existentes, inicio.value, fin.value);
      if hay {
        r := r + [Error("fecha_inicio", "solapamiento")];
      }
    }
  }

  /**
   * The date-reduction check as written: a date changed (its 'Y-m-d' text
   * differs from the request's) and either the requested start compares
   * greater than the stored start or the requested end compares smaller than
   * the stored end, where PHP compares the request's text with the stored
   * date's 'Y-m-d H:i:s' text. A null request value compares smaller.
   */
  predicate ReduccionComoEscrita(g: Gestion, inicio: Option<string>, fin: Option<string>)
    requires Valida(g.inicio) && Valida(g.fin)
  {
    var cambio := inicio != Some(FormatoYmd(g.inicio)) || fin != Some(FormatoYmd(g.fin));
    cambio &&
    ((inicio.Some? && MenorTexto(TextoCarbon(g.inicio), inicio.value)) ||
     (fin.None? || MenorTexto(fin.value, TextoCarbon(g.fin))))
  }

  /**
   * The date-reduction check as intended: a date changed and the period
   * would start later or end earlier than it does.
   */
  predicate Reduccion(g: Gestion, inicio: Fecha, fin: Fecha) {
    (inicio != g.inicio || fin != g.fin) && (Antes(g.inicio, inicio) || Antes(fin, g.fin))
  }

  /**
   * On date texts the check as written rejects an unchanged end date: every
   * change counts as a reduction unless the end date moves later.
   */
  lemma ReduccionComoEscritaEs(g: Gestion, inicio: Fecha, fin: Fecha)
    requires Valida(g.inicio) && Valida(g.fin) && Valida(inicio) && Valida(fin)
    requires 0 <= g.inicio.anio < 10000 && 0 <= g.fin.anio < 10000
    requires 0 <= inicio.anio < 10000 && 0 <= fin.anio < 10000
    ensures ReduccionComoEscrita(g, Some(FormatoYmd(inicio)), Some(FormatoYmd(fin))) <==>
      (inicio != g.inicio || fin != g.fin) && (Antes(g.inicio, inicio) || AntesOIgual(fin, g.fin))
  {
    IgualYmd(inicio, g.inicio);
    IgualYmd(fin, g.fin);
    MayorQueCarbon(inicio, g.inicio);
    MenorQueCarbon(fin, g.fin);
  }

  /**
   * A term with data running 2024-03-01 to 2024-06-30 is moved to start on
   * 2024-02-15 with the same end: a pure extension, which the check as
   * written rejects and the intended one accepts.
   */
  lemma ExtensionRechazadaComoEscrita()
    ensures var g := Gestion(1, "2024-I", None, Fecha(2024, 3, 1), Fecha(2024, 6, 30), Activo, false);
      ReduccionComoEscrita(g, Some(FormatoYmd(Fecha(2024, 2, 15))), Some(FormatoYmd(Fecha(2024, 6, 30)))) &&
      !Reduccion(g, Fecha(2024, 2, 15), Fecha(2024, 6, 30))
  {
    var g := Gestion(1, "2024-I", None, Fecha(2024, 3, 1), Fecha(2024, 6, 30), Activo, false);
    ReduccionComoEscritaEs(g, Fecha(2024, 2, 15), Fecha(2024, 6, 30));
  }

  /** As intended: moving the start earlier or the end later, or both, is never a reduction; moving either inwards is. */
  lemma ReduccionSoloAlAcortar(g: Gestion, inicio: Fecha, fin: Fecha)
    ensures AntesOIgual(inicio, g.inicio) && AntesOIgual(g.fin, fin) ==> !Reduccion(g, inicio, fin)
    ensures Antes(g.inicio, inicio) || Antes(fin, g.fin) ==> Reduccion(g, inicio, fin)
  {
  }

  const ErrorDesactivarActual := Error("estado", "gestion_actual")
  const ErrorReduccion := Error("fecha_inicio", "reduccion")

  /**
   * validarGestionActual, with the intended date-reduction check: the current
   * term cannot be set 'inactivo', and a term with teachers or programs
   * cannot be shortened. It runs whatever errors there already are.
   */
  method ValidarGestionActual(g: Gestion, tieneDatos: bool, p: Solicitud, errores: seq<Error>)
    returns (r: seq<Error>)
    ensures r == errores +
      Si(g.esActual && p.estado == Some("inactivo"), ErrorDesactivarActual) +
      Si(tieneDatos && FechaDe(p.fechaInicio).Some? && FechaDe(p.fechaFin).Some? &&
         Reduccion(g, FechaDe(p.fechaInicio).value, FechaDe(p.fechaFin).value), ErrorReduccion)
  {
    r := errores;
    if g.esActual && p.estado == Some("inactivo") {
      r := r + [ErrorDesactivarActual];
    }
    if tieneDatos {
      var inicio, fin := FechaDe(p.fechaInicio), FechaDe(p.fechaFin);
      if inicio.Some? && fin.Some? && Reduccion(g, inicio.value, fin.value) {
        r := r + [ErrorReduccion];
      }
    }
  }

  /** The outcome of a form: its validated data, or the errors. */
  datatype Validacion = Aceptada(datos: Solicitud) | Rechazada(errores: seq<Error>)

  /** What StoreGestionRequest accepts: the rule table, and no existing term overlapping the dates. */
  predicate AceptaCreacion(p: Solicitud, existentes: seq<Gestion>, hoy: Fecha)
    requires Valida(hoy)
  {
    CumpleReglas(Creacion, p, existentes, hoy) &&
    !HaySolapamiento(Creacion, existentes, FechaDe(p.fechaInicio).value, FechaDe(p.fechaFin).value)
  }

  /**
   * What UpdateGestionRequest accepts for the stored term `g`: the rule
   * table, no other term overlapping the dates, the current term not set
   * 'inactivo', and a term with data not shortened.
   */
  predicate AceptaEdicion(g: Gestion, tieneDatos: bool, p: Solicitud, existentes: seq<Gestion>, hoy: Fecha)
    requires Valida(hoy)
  {
    CumpleReglas(Edicion(g.id), p, existentes, hoy) &&
    var inicio, fin := FechaDe(p.fechaInicio).value, FechaDe(p.fechaFin).value;
    !HaySolapamiento(Edicion(g.id), existentes, inicio, fin) &&
    !(g.esActual && p.estado == Some("inactivo")) &&
    !(tieneDatos && Reduccion(g, inicio, fin))
  }

  /** StoreGestionRequest: prepare, the rule table, then the overlap hook. */
  method ValidarCreacion(s: Solicitud, existentes: seq<Gestion>, hoy: Fecha) returns (r: Validacion)
    requires Valida(hoy)
    ensures r.Aceptada? <==> AceptaCreacion(Preparar(s), existentes, hoy)
    ensures r.Aceptada? ==> r.datos == Preparar(s)
  {
    var p := Preparar(s);
    var reglas := ErroresReglas(Creacion, p, existentes, hoy);
    ReglasSinErrores(Creacion, p, existentes, hoy);
    var errores := ValidarSolapamiento(Creacion, p, existentes, reglas);
    assert |reglas| <= |errores|;
    if reglas == [] {
      assert InicioValido(p.fechaInicio, InicioMinimo(Creacion, hoy));
      assert FechaDe(p.fechaInicio).Some? && FechaDe(p.fechaFin).Some?;
    }
    if errores == [] {
      r := Aceptada(p);
    } else {
      r := Rechazada(errores);
    }
  }

  /**
   * UpdateGestionRequest for the stored term `g`: prepare, the rule table,
   * the overlap hook excluding `g`, then the current-term checks.
   */
  method ValidarEdicion(s: Solicitud, g: Gestion, tieneDatos: bool, existentes: seq<Gestion>, hoy: Fecha)
    returns (r: Validacion)
    requires Valida(hoy)
    ensures r.Aceptada? <==> AceptaEdicion(g, tieneDatos, Preparar(s), existentes, hoy)
    ensures r.Aceptada? ==> r.datos == Preparar(s)
    ensures g.esActual && Preparar(s).estado == Some("inactivo") ==> r.Rechazada?
  {
    var p := Preparar(s);
    var reglas := ErroresReglas(Edicion(g.id), p, existentes, hoy);
    ReglasSinErrores(Edicion(g.id), p, existentes, hoy);
    var solapa := ValidarSolapamiento(Edicion(g.id), p, existentes, reglas);
    var errores := ValidarGestionActual(g, tieneDatos, p, solapa);
    assert |reglas| <= |solapa| <= |errores|;
    if errores == [] {
      assert SinErrorDeFechas(reglas);
      r := Aceptada(p);
    } else {
      r := Rechazada(errores);
    }
  }
}
