/**
 * The dashboard (DashboardController.php): the colour and month-name lookups
 * of the charts, the whole-number part of the statistics cards, the landing
 * page with and without a current academic period, and the merged list of
 * recent activity. Creation timestamps are given with the rows.
 */
module Tablero {
  import opened Wrappers
  import opened Texto
  import opened Consultas
  import opened Ordenamiento
  import opened Fechas
  import opened Registros

  // Chart lookups

  /** The colour of anything the lookups do not list. */
  const Gris := "#6B7280"

  const ColoresTipo: map<string, string> :=
    map["maestria" := "#3B82F6", "doctorado" := "#EF4444", "especialidad" := "#10B981", "diplomado" := "#F59E0B"]

  const ColoresModalidad: map<string, string> :=
    map["presencial" := "#8B5CF6", "virtual" := "#06B6D4", "semipresencial" := "#F97316", "hibrida" := "#EC4899"]

  const ColoresEstado: map<string, string> :=
    map["aprobada" := "#10B981", "en_proceso" := "#F59E0B", "observada" := "#EF4444", "pendiente" := "#6B7280",
        "defendida" := "#3B82F6"]

  predicate EsHex(c: char) { '0' <= c <= '9' || 'A' <= c <= 'F' }

  /** A CSS colour written '#RRGGBB'. */
  predicate EsColor(s: string) {
    |s| == 7 && s[0] == '#' && forall i :: 1 <= i < 7 ==> EsHex(s[i])
  }

  /** Two texts that differ at most in the case of ASCII letters. */
  predicate IgualesSinMayusculas(a: string, b: string) {
    |a| == |b| && forall i :: 0 <= i < |a| ==> Minuscula(a[i]) == Minuscula(b[i])
  }

  /** A colour table whose keys are lower case and whose values are colours. */
  predicate TablaDeColores(colores: map<string, string>) {
    forall k :: k in colores ==> Minusculas(k) == k && EsColor(colores[k])
  }

  /**
   * `$colores[strtolower($clave)] ?? '#6B7280'`: a key written in any case
   * gets the colour listed for it, and anything unlisted is grey.
   */
  function Color(colores: map<string, string>, clave: string): (r: string)
    requires TablaDeColores(colores)
    ensures EsColor(r)
    ensures forall k :: k in colores && IgualesSinMayusculas(clave, k) ==> r == colores[k]
    ensures (forall k :: k in colores ==> !IgualesSinMayusculas(clave, k)) ==> r == Gris
  {
    MismaClave(colores, clave);
    var k := Minusculas(clave);
    if k in colores then colores[k] else Gris
  }

  /** Texts equal but for case have the same strtolower. */
  lemma MinusculasIguales(a: string, b: string)
    requires IgualesSinMayusculas(a, b)
    ensures Minusculas(a) == Minusculas(b)
  {
  }

  /** The only key of a lower-case table a text can match regardless of case is its strtolower. */
  lemma MismaClave(colores: map<string, string>, clave: string)
    requires TablaDeColores(colores)
    ensures forall k :: k in colores && IgualesSinMayusculas(clave, k) ==> k == Minusculas(clave)
    ensures Minusculas(clave) in colores ==> IgualesSinMayusculas(clave, Minusculas(clave))
  {
    forall k | k in colores && IgualesSinMayusculas(clave, k)
      ensures k == Minusculas(clave)
    {
      MinusculasIguales(clave, k);
    }
  }

  /** A text without capitals is its own strtolower. */
  lemma MinusculasDeMinusculas(s: string)
    requires forall i :: 0 <= i < |s| ==> !('A' <= s[i] <= 'Z')
    ensures Minusculas(s) == s
  {
  }

  lemma ColoresTipoValidos()
    ensures TablaDeColores(ColoresTipo)
  {
    MinusculasDeMinusculas("maestria");
    MinusculasDeMinusculas("doctorado");
    MinusculasDeMinusculas("especialidad");
    MinusculasDeMinusculas("diplomado");
  }

  lemma ColoresModalidadValidos()
    ensures TablaDeColores(ColoresModalidad)
  {
    MinusculasDeMinusculas("presencial");
    MinusculasDeMinusculas("virtual");
    MinusculasDeMinusculas("semipresencial");
    MinusculasDeMinusculas("hibrida");
  }

  lemma ColoresEstadoValidos()
    ensures TablaDeColores(ColoresEstado)
  {
    MinusculasDeMinusculas("aprobada");
    MinusculasDeMinusculas("en_proceso");
    MinusculasDeMinusculas("observada");
    MinusculasDeMinusculas("pendiente");
    MinusculasDeMinusculas("defendida");
  }

  /** obtenerColorParaTipo: each of the four program types has a colour of its own; anything else is grey. */
  function ColorParaTipo(tipo: string): (r: string)
    ensures EsColor(r)
    ensures r != Gris <==> exists k :: k in ColoresTipo && IgualesSinMayusculas(tipo, k)
  {
    ColoresTipoValidos();
    Color(ColoresTipo, tipo)
  }

  /** obtenerColorParaModalidad: each of the four modalities has a colour of its own; anything else is grey. */
  function ColorParaModalidad(modalidad: string): (r: string)
    ensures EsColor(r)
    ensures r != Gris <==> exists k :: k in ColoresModalidad && IgualesSinMayusculas(modalidad, k)
  {
    ColoresModalidadValidos();
    Color(ColoresModalidad, modalidad)
  }

  /** obtenerColorParaEstado: 'pendiente' shares the grey of unknown states; the other four are coloured. */
  function ColorParaEstado(estado: string): (r: string)
    ensures EsColor(r)
    ensures r != Gris <==> exists k :: k in ColoresEstado && k != "pendiente" && IgualesSinMayusculas(estado, k)
  {
    ColoresEstadoValidos();
    Color(ColoresEstado, estado)
  }

  const Meses: map<int, string> :=
    map[1 := "Enero", 2 := "Febrero", 3 := "Marzo", 4 := "Abril", 5 := "Mayo", 6 := "Junio", 7 := "Julio",
        8 := "Agosto", 9 := "Septiembre", 10 := "Octubre", 11 := "Noviembre", 12 := "Diciembre"]

  /** obtenerNombreMes: the Spanish name of months 1 to 12, 'Mes desconocido' for any other number. */
  function NombreMes(n: int): (r: string)
    ensures r == "Mes desconocido" <==> !(1 <= n <= 12)
  {
    if n in Meses then Meses[n] else "Mes desconocido"
  }

  /** No two months share a name. */
  lemma NombreMesInyectivo(a: int, b: int)
    requires 1 <= a <= 12 && 1 <= b <= 12 && NombreMes(a) == NombreMes(b)
    ensures a == b
  {
  }

  // Statistics cards

  /**
   * A ratio shown on a card: PHP computes `$todo > 0 ? round(...) : 0`; the
   * model keeps the two counts and leaves the rounded float out.
   */
  datatype Cociente = CeroSinDatos | Division(parte: nat, todo: nat)

  function CocienteDe(parte: nat, todo: nat): (r: Cociente)
    ensures r.CeroSinDatos? <==> todo == 0
    ensures r.Division? ==> r.parte == parte && r.todo == todo
  {
    if todo > 0 then Division(parte, todo) else CeroSinDatos
  }

  datatype ConActivos = ConActivos(total: nat, activos: nat, inactivos: nat, porcentajeActivos: Cociente)

  /**
   * The rows of a scope, those of them that are active, the rest as
   * `total - activos`, and the share of active ones (none without rows).
   */
  function ContarActivos<T>(s: seq<T>, de: T -> bool, activo: T -> bool): (r: ConActivos)
    ensures r.total == Contar(s, de) && r.activos == Contar(s, Y(de, activo))
    ensures r.inactivos == Contar(s, Y(de, No(activo)))
    ensures r.porcentajeActivos.CeroSinDatos? <==> r.total == 0
    ensures r.porcentajeActivos.Division? ==> r.porcentajeActivos == Division(r.activos, r.total)
    ensures r.porcentajeActivos.Division? ==> r.porcentajeActivos.parte <= r.porcentajeActivos.todo
  {
    ContarParte(s, de, activo);
    var total := Contar(s, de);
    var activos := Contar(s, Y(de, activo));
    ConActivos(total, activos, total - activos, CocienteDe(activos, total))
  }

  function DocenteDe(g: nat): Docente -> bool { (d: Docente) => d.gestionId == g }

  predicate DocenteActivo(d: Docente) { d.estado == "activo" }

  function ProgramaDe(g: nat): Programa -> bool { (p: Programa) => p.gestionId == g }

  predicate ProgramaActivo(p: Programa) { p.estado == "activo" }

  /** The ids of the programs of academic period `g` (what `whereHas('programa', ...)` joins on). */
  function ProgramasDeGestion(programas: seq<Programa>, g: nat): (r: set<nat>)
    ensures forall id :: id in r <==> exists p :: p in programas && p.gestionId == g && p.id == id
  {
    set p | p in programas && p.gestionId == g :: p.id
  }

  function CertificacionDe(ids: set<nat>): Certificacion -> bool { (c: Certificacion) => c.programaId in ids }

  function TesisDe(ids: set<nat>): Tesis -> bool { (t: Tesis) => t.programaId in ids }

  predicate Aprobada(t: Tesis) { t.estado == "aprobada" }

  datatype EstadisticasPrincipales = EstadisticasPrincipales(
    docentes: ConActivos,
    programas: ConActivos,
    certificaciones: nat,
    certificacionesPorPrograma: Cociente,
    tesis: nat,
    aprobadas: nat,
    pendientes: nat,
    porcentajeAprobadas: Cociente,
    tesisPorPrograma: Cociente)

  /**
   * obtenerEstadisticasPrincipales: teachers and programs of the period with
   * their active and inactive ones, certificates and theses of the period's
   * programs; "pending" theses are all those not approved, whatever their
   * state; every ratio is zero when its denominator is.
   */
  function Principales(g: nat, docentes: seq<Docente>, programas: seq<Programa>, certificaciones: seq<Certificacion>,
                       tesis: seq<Tesis>): (r: EstadisticasPrincipales)
    ensures r.docentes.total == Contar(docentes, DocenteDe(g))
    ensures r.docentes.activos == Contar(docentes, Y(DocenteDe(g), DocenteActivo))
    ensures r.programas.total == Contar(programas, ProgramaDe(g))
    ensures r.programas.activos == Contar(programas, Y(ProgramaDe(g), ProgramaActivo))
    ensures r.certificaciones == Contar(certificaciones, CertificacionDe(ProgramasDeGestion(programas, g)))
    ensures r.tesis == Contar(tesis, TesisDe(ProgramasDeGestion(programas, g)))
    ensures r.aprobadas == Contar(tesis, Y(TesisDe(ProgramasDeGestion(programas, g)), Aprobada))
    ensures r.docentes.activos + r.docentes.inactivos == r.docentes.total
    ensures r.docentes.porcentajeActivos == (if r.docentes.total == 0 then CeroSinDatos else Division(r.docentes.activos, r.docentes.total))
    ensures r.programas.porcentajeActivos == (if r.programas.total == 0 then CeroSinDatos else Division(r.programas.activos, r.programas.total))
    ensures r.docentes.inactivos == Contar(docentes, Y(DocenteDe(g), No(DocenteActivo)))
    ensures r.programas.activos + r.programas.inactivos == r.programas.total
    ensures r.programas.inactivos == Contar(programas, Y(ProgramaDe(g), No(ProgramaActivo)))
    ensures r.aprobadas + r.pendientes == r.tesis
    ensures r.pendientes == Contar(tesis, Y(TesisDe(ProgramasDeGestion(programas, g)), No(Aprobada)))
    ensures r.porcentajeAprobadas.CeroSinDatos? <==> r.tesis == 0
    ensures r.porcentajeAprobadas.Division? ==> r.porcentajeAprobadas == Division(r.aprobadas, r.tesis)
    ensures r.certificacionesPorPrograma.CeroSinDatos? <==> r.programas.total == 0
    ensures r.certificacionesPorPrograma.Division? ==> r.certificacionesPorPrograma == Division(r.certificaciones, r.programas.total)
    ensures r.tesisPorPrograma.CeroSinDatos? <==> r.programas.total == 0
    ensures r.tesisPorPrograma.Division? ==> r.tesisPorPrograma == Division(r.tesis, r.programas.total)
  {
    var ids := ProgramasDeGestion(programas, g);
    var d := ContarActivos(docentes, DocenteDe(g), DocenteActivo);
    var p := ContarActivos(programas, ProgramaDe(g), ProgramaActivo);
    var t := ContarActivos(tesis, TesisDe(ids), Aprobada);
    var c := Contar(certificaciones, CertificacionDe(ids));
    EstadisticasPrincipales(d, p, c, CocienteDe(c, p.total), t.total, t.activos, t.inactivos, t.porcentajeActivos,
                            CocienteDe(t.total, p.total))
  }

  // Ordering by creation time

  /** A row with its `created_at` timestamp. */
  datatype Fechada<T> = Fechada(fila: T, creado: int)

  /** `orderBy('created_at', 'desc')`, `latest()` and `sortByDesc('fecha_creacion')`. */
  function MasReciente<T>(): (Fechada<T>, Fechada<T>) -> bool {
    (a: Fechada<T>, b: Fechada<T>) => a.creado >= b.creado
  }

  lemma MasRecienteEsOrden<T(!new)>()
    ensures Total(MasReciente<T>()) && Transitiva(MasReciente<T>())
  {
  }

  /** `x` comes strictly before `y`: it may precede it and `y` may not precede `x`. */
  function EstrictamenteAntes<T>(va: (T, T) -> bool, y: T): T -> bool {
    x => va(x, y) && !va(y, x)
  }

  /** In a sorted permutation of `s`, at most i rows of `s` come strictly before the i-th. */
  lemma NadaSaltado<T(!new)>(s: seq<T>, t: seq<T>, va: (T, T) -> bool, i: nat)
    requires Total(va) && Ordenada(t, va) && multiset(s) == multiset(t) && i < |t|
    ensures Contar(s, EstrictamenteAntes(va, t[i])) <= i
  {
    var antes := EstrictamenteAntes(va, t[i]);
    ContarPermutacion(s, t, antes);
    assert t == t[..i] + t[i..];
    ContarConcatenar(t[..i], t[i..], antes);
    forall j | 0 <= j < |t[i..]|
      ensures !antes(t[i..][j])
    {
      assert t[i..][j] == t[i + j];
      assert va(t[i], t[i + j]);
    }
    ContarCero(t[i..], antes);
  }

  /** The first `n` rows of a sorted table keep the order, and none of the rows left out precedes them. */
  lemma PrimerosDeOrdenada<T(!new)>(s: seq<T>, va: (T, T) -> bool, n: nat)
    requires Total(va) && Transitiva(va)
    ensures var r := Tomar(Ordenar(s, va), n);
      && Ordenada(r, va) && multiset(r) <= multiset(s) && (|s| <= n ==> multiset(r) == multiset(s))
      && forall i :: 0 <= i < |r| ==> Contar(s, EstrictamenteAntes(va, r[i])) <= i
  {
    var t := Ordenar(s, va);
    OrdenarOrdena(s, va);
    var r := Tomar(t, n);
    assert t == r + t[|r|..];
    assert multiset(t) == multiset(r) + multiset(t[|r|..]);
    forall i | 0 <= i < |r|
      ensures Contar(s, EstrictamenteAntes(va, r[i])) <= i
    {
      NadaSaltado(s, t, va, i);
    }
  }

  /**
   * `orderBy(...)->take(n)`: at most `n` of the rows, in order, all of them
   * when there are no more than `n`, and none left out comes strictly before
   * one kept: at most i rows precede the i-th row kept.
   */
  function Primeros<T(!new)>(s: seq<T>, va: (T, T) -> bool, n: nat): (r: seq<T>)
    requires Total(va) && Transitiva(va)
    ensures |r| == if |s| < n then |s| else n
    ensures Ordenada(r, va)
    ensures multiset(r) <= multiset(s)
    ensures |s| <= n ==> multiset(r) == multiset(s)
    ensures forall i :: 0 <= i < |r| ==> Contar(s, EstrictamenteAntes(va, r[i])) <= i
  {
    PrimerosDeOrdenada(s, va, n);
    Tomar(Ordenar(s, va), n)
  }

  // The landing page

  datatype Totales = Totales(docentes: nat, programas: nat, tesis: nat, certificaciones: nat)

  /** What `index` renders; the statistics are absent, and the lists empty, without a current period. */
  datatype Inicio = Inicio(
    estadisticas: Option<Totales>,
    tesisPorEstado: map<string, nat>,
    ultimasTesis: seq<Fechada<Tesis>>,
    paginasMasVisitadas: seq<(string, nat)>)

  function TesisEnGestion(g: nat): Fechada<Tesis> -> bool { (t: Fechada<Tesis>) => t.fila.gestionId == Some(g) }

  function CertificacionEnGestion(g: nat): Certificacion -> bool { (c: Certificacion) => c.gestionId == Some(g) }

  function ConEstado(e: string): Fechada<Tesis> -> bool { (t: Fechada<Tesis>) => t.fila.estado == e }

  /** The states that occur among the theses. */
  function Estados(ts: seq<Fechada<Tesis>>): (r: set<string>)
    ensures forall e :: e in r <==> exists i :: 0 <= i < |ts| && ts[i].fila.estado == e
  {
    set i | 0 <= i < |ts| :: ts[i].fila.estado
  }

  /** Every state that occurs has a count of at least one. */
  lemma EstadosPresentes(ts: seq<Fechada<Tesis>>)
    ensures forall e :: e in Estados(ts) ==> Contar(ts, ConEstado(e)) >= 1
  {
    forall e | e in Estados(ts)
      ensures Contar(ts, ConEstado(e)) >= 1
    {
      var i :| 0 <= i < |ts| && ts[i].fila.estado == e;
      ContarCero(ts, ConEstado(e));
    }
  }

  /**
   * `select('estado', count(*))->groupBy('estado')->pluck('total', 'estado')`:
   * one entry per state that occurs, with the number of theses in it.
   */
  function PorEstado(ts: seq<Fechada<Tesis>>): (r: map<string, nat>)
    ensures forall e :: e in r <==> exists i :: 0 <= i < |ts| && ts[i].fila.estado == e
    ensures forall e :: e in r ==> r[e] == Contar(ts, ConEstado(e)) && r[e] >= 1
  {
    var estados := Estados(ts);
    EstadosPresentes(ts);
    map e | e in estados :: Contar(ts, ConEstado(e))
  }

  /**
   * `where(...)->orderBy('created_at', 'desc')->limit(n)`: at most `n` rows
   * that satisfy the condition, latest first, and at most i rows that satisfy
   * it are more recent than the i-th row kept.
   */
  function Recientes<T(!new)>(s: seq<Fechada<T>>, de: Fechada<T> -> bool, n: nat): (r: seq<Fechada<T>>)
    ensures |r| == if Contar(s, de) < n then Contar(s, de) else n
    ensures forall i :: 0 <= i < |r| ==> r[i] in s && de(r[i])
    ensures Ordenada(r, MasReciente())
    ensures forall i :: 0 <= i < |r| ==> Contar(s, Y(de, EstrictamenteAntes(MasReciente(), r[i]))) <= i
  {
    var filas := Seleccionar(s, de);
    MasRecienteEsOrden<T>();
    var r := Primeros(filas, MasReciente(), n);
    DeLaSeleccion(s, de, r);
    r
  }

  /** Rows taken from a `where` come from the table and satisfy it, and counts among them are counts with both conditions. */
  lemma DeLaSeleccion<T>(s: seq<T>, de: T -> bool, r: seq<T>)
    requires multiset(r) <= multiset(Seleccionar(s, de))
    ensures forall i :: 0 <= i < |r| ==> r[i] in s && de(r[i])
    ensures forall q :: Contar(Seleccionar(s, de), q) == Contar(s, Y(de, q))
  {
    forall i | 0 <= i < |r|
      ensures r[i] in s && de(r[i])
    {
      assert r[i] in multiset(Seleccionar(s, de));
    }
    forall q {
      ContarSeleccionar(s, de, q);
    }
  }

  function MasVisitada(): ((string, nat), (string, nat)) -> bool {
    (a: (string, nat), b: (string, nat)) => a.1 >= b.1
  }

  /** `PageVisit::orderByDesc('visitas')->take(5)`: the five most visited pages; none left out has more visits. */
  function MasVisitadas(paginas: seq<(string, nat)>): (r: seq<(string, nat)>)
    ensures |r| == if |paginas| < 5 then |paginas| else 5
    ensures Ordenada(r, MasVisitada())
    ensures multiset(r) <= multiset(paginas)
    ensures forall i :: 0 <= i < |r| ==> Contar(paginas, EstrictamenteAntes(MasVisitada(), r[i])) <= i
  {
    Primeros(paginas, MasVisitada(), 5)
  }

  /** The theses of period `g` counted by state: exactly the states that occur in the period. */
  function TesisPorEstado(tesis: seq<Fechada<Tesis>>, g: nat): (r: map<string, nat>)
    ensures forall e :: e in r <==>
      exists i :: 0 <= i < |tesis| && tesis[i].fila.gestionId == Some(g) && tesis[i].fila.estado == e
    ensures forall e :: e in r ==> r[e] >= 1
  {
    var deGestion := Seleccionar(tesis, TesisEnGestion(g));
    assert forall i :: 0 <= i < |tesis| && TesisEnGestion(g)(tesis[i]) ==> tesis[i] in deGestion;
    assert forall j :: 0 <= j < |deGestion| ==> deGestion[j] in tesis && TesisEnGestion(g)(deGestion[j]);
    PorEstado(deGestion)
  }

  /**
   * index: with a current period, the period's counts, its theses by state
   * and its five latest theses; without one, the counts are absent and the
   * lists empty. The five most visited pages are shown in both cases.
   */
  function Index(gestionActual: Option<nat>, docentes: seq<Docente>, programas: seq<Programa>,
                 tesis: seq<Fechada<Tesis>>, certificaciones: seq<Certificacion>, paginas: seq<(string, nat)>)
    : (r: Inicio)
    ensures gestionActual.None? ==> r.estadisticas.None? && r.tesisPorEstado == map[] && r.ultimasTesis == []
    ensures gestionActual.Some? ==>
      var g := gestionActual.value;
      && r.estadisticas == Some(Totales(Contar(docentes, DocenteDe(g)), Contar(programas, ProgramaDe(g)),
                                        Contar(tesis, TesisEnGestion(g)), Contar(certificaciones, CertificacionEnGestion(g))))
      && r.tesisPorEstado == TesisPorEstado(tesis, g)
      && r.ultimasTesis == Recientes(tesis, TesisEnGestion(g), 5)
    ensures r.paginasMasVisitadas == MasVisitadas(paginas)
  {
    match gestionActual
    case None => Inicio(None, map[], [], MasVisitadas(paginas))
    case Some(g) =>
      var totales := Totales(Contar(docentes, DocenteDe(g)), Contar(programas, ProgramaDe(g)),
                             Contar(tesis, TesisEnGestion(g)), Contar(certificaciones, CertificacionEnGestion(g)));
      Inicio(Some(totales), TesisPorEstado(tesis, g), Recientes(tesis, TesisEnGestion(g), 5), MasVisitadas(paginas))
  }

  // Recent activity

  datatype Actividad =
    | DeCertificacion(id: nat, programa: Option<string>, estudiante: string, fechaEmision: Option<Fecha>, creado: int)
    | DeTesis(id: nat, titulo: string, programa: Option<string>, estudiante: string, tutor: string, estado: string,
              fechaDefensa: Option<Fecha>, creado: int)

  /** `$registro->programa->nombre_carrera`. */
  function NombreDePrograma(programas: seq<Programa>, id: nat): Option<string> {
    match Primero(programas, (p: Programa) => p.id == id)
    case Some(p) => p.nombreCarrera
    case None => None
  }

  /** `$tesis->tutor->nombre_doc ?? 'Sin tutor'`: no tutor, or a tutor without a name, reads 'Sin tutor'. */
  function NombreDeTutor(docentes: seq<Docente>, tutorId: Option<nat>): (r: string)
    ensures tutorId.None? ==> r == "Sin tutor"
  {
    match tutorId
    case None => "Sin tutor"
    case Some(id) =>
      match Primero(docentes, (d: Docente) => d.id == id)
      case Some(d) => d.nombreDoc.GetOr("Sin tutor")
      case None => "Sin tutor"
  }

  function ActividadDeCertificacion(c: Fechada<Certificacion>, programas: seq<Programa>): Actividad {
    DeCertificacion(c.fila.id, NombreDePrograma(programas, c.fila.programaId),
                    c.fila.nombreEst.GetOr("No especificado"), c.fila.fechaEmision, c.creado)
  }

  function ActividadDeTesis(t: Fechada<Tesis>, programas: seq<Programa>, docentes: seq<Docente>): Actividad {
    DeTesis(t.fila.id, t.fila.titulo.GetOr("Sin título"), NombreDePrograma(programas, t.fila.programaId),
            t.fila.nombreEst.GetOr("No especificado"), NombreDeTutor(docentes, t.fila.tutorId), t.fila.estado,
            t.fila.fechaDefensa, t.creado)
  }

  /** `whereHas('programa', gestion_id = g)`: the row's program belongs to period `g`. */
  function DeProgramaEnGestion<T>(programas: seq<Programa>, g: nat, programaId: T -> nat): Fechada<T> -> bool {
    (r: Fechada<T>) => programaId(r.fila) in ProgramasDeGestion(programas, g)
  }

  function ActividadMasReciente(): (Actividad, Actividad) -> bool {
    (a: Actividad, b: Actividad) => a.creado >= b.creado
  }

  datatype Reciente = Reciente(actividad: seq<Actividad>, certificaciones: seq<Actividad>, tesis: seq<Actividad>)

  /** The five latest certificates of the period's programs. */
  function CertificacionesRecientes(g: nat, certificaciones: seq<Fechada<Certificacion>>, programas: seq<Programa>)
    : seq<Fechada<Certificacion>>
  {
    Recientes(certificaciones, DeProgramaEnGestion(programas, g, (c: Certificacion) => c.programaId), 5)
  }

  /** The five latest theses of the period's programs. */
  function TesisRecientes(g: nat, tesis: seq<Fechada<Tesis>>, programas: seq<Programa>): seq<Fechada<Tesis>> {
    Recientes(tesis, DeProgramaEnGestion(programas, g, (t: Tesis) => t.programaId), 5)
  }

  /**
   * obtenerActividadReciente: the five latest certificates and the five
   * latest theses of the period's programs, then both lists merged, latest
   * first, and cut to ten, which leaves every item of both lists in.
   */
  /** The items of two lists of at most five each, latest first: cutting them to ten drops none. */
  function Fusionar(ac: seq<Actividad>, at: seq<Actividad>): (r: seq<Actividad>)
    requires |ac| <= 5 && |at| <= 5
    ensures Ordenada(r, ActividadMasReciente())
    ensures |r| == |ac| + |at| <= 10 && multiset(r) == multiset(ac + at)
  {
    OrdenarOrdena(ac + at, ActividadMasReciente());
    Tomar(Ordenar(ac + at, ActividadMasReciente()), 10)
  }

  function ActividadesDeCertificaciones(cs: seq<Fechada<Certificacion>>, programas: seq<Programa>): (r: seq<Actividad>)
    ensures |r| == |cs| && forall i :: 0 <= i < |cs| ==> r[i] == ActividadDeCertificacion(cs[i], programas)
  {
    seq(|cs|, i requires 0 <= i < |cs| => ActividadDeCertificacion(cs[i], programas))
  }

  function ActividadesDeTesis(ts: seq<Fechada<Tesis>>, programas: seq<Programa>, docentes: seq<Docente>)
    : (r: seq<Actividad>)
    ensures |r| == |ts| && forall i :: 0 <= i < |ts| ==> r[i] == ActividadDeTesis(ts[i], programas, docentes)
  {
    seq(|ts|, i requires 0 <= i < |ts| => ActividadDeTesis(ts[i], programas, docentes))
  }

  function ActividadReciente(g: nat, certificaciones: seq<Fechada<Certificacion>>, tesis: seq<Fechada<Tesis>>,
                             programas: seq<Programa>, docentes: seq<Docente>): (r: Reciente)
    ensures var cs := CertificacionesRecientes(g, certificaciones, programas);
      && |r.certificaciones| == |cs| <= 5
      && forall i :: 0 <= i < |cs| ==> r.certificaciones[i] == ActividadDeCertificacion(cs[i], programas)
    ensures var ts := TesisRecientes(g, tesis, programas);
      && |r.tesis| == |ts| <= 5
      && forall i :: 0 <= i < |ts| ==> r.tesis[i] == ActividadDeTesis(ts[i], programas, docentes)
    ensures Ordenada(r.actividad, ActividadMasReciente())
    ensures |r.actividad| <= 10 && multiset(r.actividad) == multiset(r.certificaciones + r.tesis)
  {
    var ac := ActividadesDeCertificaciones(CertificacionesRecientes(g, certificaciones, programas), programas);
    var at := ActividadesDeTesis(TesisRecientes(g, tesis, programas), programas, docentes);
    Reciente(Fusionar(ac, at), ac, at)
  }
}
