/**
 * The academic-records screens (DatosAcademicosController.php): the index
 * filters and statistics, and the consolidated summary of one student. The
 * period held in the cache is a parameter; the free-text search and the
 * pagination are not part of this model.
 */
module DatosAcademicos {
  import opened Wrappers
  import opened Texto
  import opened Fechas
  import opened Reglas
  import opened Consultas
  import opened Registros

  /** The query-string filters `carrera`, `con_defensa` and `matriculado`. */
  datatype Filtros = Filtros(carrera: Option<string>, conDefensa: Option<string>, matriculado: Option<string>)

  /** The rows of the cached period, or every row when none is cached. */
  function DeGestion(s: seq<DatoAcademico>, gestionActual: Option<nat>): seq<DatoAcademico> {
    if gestionActual.Some? then Seleccionar(s, (d: DatoAcademico) => d.gestionId == gestionActual.value) else s
  }

  /** `carrera`: when truthy, only the rows of that program code. */
  function FiltroCarrera(q: seq<DatoAcademico>, carrera: Option<string>): (r: seq<DatoAcademico>)
    ensures forall d :: d in r <==> d in q && (Veraz(carrera) ==> d.codCarrera == carrera)
  {
    if Veraz(carrera) then Seleccionar(q, (d: DatoAcademico) => d.codCarrera == carrera) else q
  }

  predicate SinDefensa(d: DatoAcademico) { d.fechaDefensa.None? }

  /** `con_defensa`: 'si' keeps the rows with a defence date, 'no' those without, anything else all. */
  function FiltroDefensa(q: seq<DatoAcademico>, conDefensa: Option<string>): (r: seq<DatoAcademico>)
    ensures forall d :: d in r <==> d in q && (conDefensa == Some("si") ==> d.fechaDefensa.Some?)
                                           && (conDefensa == Some("no") ==> d.fechaDefensa.None?)
  {
    if Veraz(conDefensa) && conDefensa.value == "si" then Seleccionar(q, TieneDefensaTesis)
    else if Veraz(conDefensa) && conDefensa.value == "no" then Seleccionar(q, SinDefensa)
    else q
  }

  /** The value `matriculado` must hold, when the filter asks for one: 'si' asks for 'S', any other truthy value for 'N'. */
  function MatriculadoBuscado(matriculado: Option<string>): (r: Option<string>)
    ensures r.Some? <==> Veraz(matriculado)
    ensures r.Some? ==> (r.value == "S" <==> matriculado.value == "si") && (r.value == "S" || r.value == "N")
  {
    if !Veraz(matriculado) then None else if matriculado.value == "si" then Some("S") else Some("N")
  }

  /** `matriculado`: when truthy, only the rows whose column holds the value asked for. */
  function FiltroMatricula(q: seq<DatoAcademico>, matriculado: Option<string>): (r: seq<DatoAcademico>)
    ensures forall d :: d in r <==> d in q && (Veraz(matriculado) ==> d.matriculado == MatriculadoBuscado(matriculado))
  {
    if Veraz(matriculado) then Seleccionar(q, (d: DatoAcademico) => d.matriculado == MatriculadoBuscado(matriculado))
    else q
  }

  /** The index query, built as the controller builds it: each truthy filter adds one `where`. */
  function Consulta(s: seq<DatoAcademico>, gestionActual: Option<nat>, f: Filtros): seq<DatoAcademico> {
    FiltroMatricula(FiltroDefensa(FiltroCarrera(DeGestion(s, gestionActual), f.carrera), f.conDefensa), f.matriculado)
  }

  /** Which rows the filters keep, one condition per filter. */
  predicate PasaFiltros(d: DatoAcademico, gestionActual: Option<nat>, f: Filtros) {
    (gestionActual.Some? ==> d.gestionId == gestionActual.value)
    && (Veraz(f.carrera) ==> d.codCarrera == f.carrera)
    && (f.conDefensa == Some("si") ==> d.fechaDefensa.Some?)
    && (f.conDefensa == Some("no") ==> d.fechaDefensa.None?)
    && (Veraz(f.matriculado) ==> d.matriculado == MatriculadoBuscado(f.matriculado))
  }

  /** The index query keeps exactly the rows that pass every filter. */
  lemma ConsultaExacta(s: seq<DatoAcademico>, gestionActual: Option<nat>, f: Filtros, d: DatoAcademico)
    ensures d in Consulta(s, gestionActual, f) <==> d in s && PasaFiltros(d, gestionActual, f)
  {
    var q0 := DeGestion(s, gestionActual);
    assert d in q0 <==> d in s && (gestionActual.Some? ==> d.gestionId == gestionActual.value);
    var q1 := FiltroCarrera(q0, f.carrera);
    var q2 := FiltroDefensa(q1, f.conDefensa);
    assert d in q2 <==> d in q1 && (f.conDefensa == Some("si") ==> d.fechaDefensa.Some?)
                                && (f.conDefensa == Some("no") ==> d.fechaDefensa.None?);
  }

  /** Every row either has a defence date or has none. */
  lemma DefensaOSinDefensa(q: seq<DatoAcademico>)
    ensures Contar(q, TieneDefensaTesis) + Contar(q, SinDefensa) == |q|
  {
    var nunca := (d: DatoAcademico) => false;
    ContarTres(q, TieneDefensaTesis, SinDefensa, nunca);
    ContarCero(q, nunca);
  }

  /** With only `con_defensa` set to 'si' or 'no', the query is one selection over the program's rows. */
  lemma ConsultaPorDefensa(s: seq<DatoAcademico>, gestionActual: Option<nat>, carrera: Option<string>, valor: string)
    requires valor == "si" || valor == "no"
    ensures Consulta(s, gestionActual, Filtros(carrera, Some(valor), None))
         == Seleccionar(FiltroCarrera(DeGestion(s, gestionActual), carrera),
                        if valor == "si" then TieneDefensaTesis else SinDefensa)
  {
    assert !VacioPhp(valor);
  }

  /** With the period and the program fixed, 'si' and 'no' split the unfiltered rows between them. */
  lemma DefensaParte(s: seq<DatoAcademico>, gestionActual: Option<nat>, carrera: Option<string>)
    ensures |Consulta(s, gestionActual, Filtros(carrera, Some("si"), None))|
          + |Consulta(s, gestionActual, Filtros(carrera, Some("no"), None))|
         == |Consulta(s, gestionActual, Filtros(carrera, None, None))|
  {
    ConsultaPorDefensa(s, gestionActual, carrera, "si");
    ConsultaPorDefensa(s, gestionActual, carrera, "no");
    DefensaOSinDefensa(FiltroCarrera(DeGestion(s, gestionActual), carrera));
  }

  // Statistics

  /** The distinct non-null values of a column: what COUNT(DISTINCT column) counts. */
  function Distintos(s: seq<DatoAcademico>, columna: DatoAcademico -> Option<string>): (r: set<string>)
    ensures forall v :: v in r <==> exists i :: 0 <= i < |s| && columna(s[i]) == Some(v)
  {
    set i | 0 <= i < |s| && columna(s[i]).Some? :: columna(s[i]).value
  }

  /** A column never holds more distinct values than the table has rows. */
  lemma {:induction false} DistintosAcotados(s: seq<DatoAcademico>, columna: DatoAcademico -> Option<string>)
    ensures |Distintos(s, columna)| <= |s|
  {
    if s != [] {
      var t := s[..|s| - 1];
      DistintosAcotados(t, columna);
      var extra := if columna(s[|s| - 1]).Some? then {columna(s[|s| - 1]).value} else {};
      assert Distintos(s, columna) <= Distintos(t, columna) + extra by {
        forall v | v in Distintos(s, columna)
          ensures v in Distintos(t, columna) + extra
        {
          var i :| 0 <= i < |s| && columna(s[i]) == Some(v);
          if i < |s| - 1 {
            assert t[i] == s[i];
          }
        }
      }
      SubconjuntoMenor(Distintos(s, columna), Distintos(t, columna) + extra);
    }
  }

  /** A subset has no more elements than the set it is in. */
  lemma SubconjuntoMenor(a: set<string>, b: set<string>)
    requires a <= b
    ensures |a| <= |b|
  {
    assert b == a + (b - a);
  }

  datatype Estadisticas = Estadisticas(
    totalRegistros: nat,
    estudiantesUnicos: nat,
    conDefensaTesis: nat,
    matriculados: nat,
    actaCerrada: nat,
    carrerasActivas: nat,
    docentesActivos: nat)

  function NroRegistroDe(d: DatoAcademico): Option<string> { d.nroRegistroEst }

  function CodCarreraDe(d: DatoAcademico): Option<string> { d.codCarrera }

  function CodDocDe(d: DatoAcademico): Option<string> { d.codDoc }

  /** No distinct value exactly when the column is null in every row. */
  lemma DistintosVacio(s: seq<DatoAcademico>, columna: DatoAcademico -> Option<string>)
    ensures |Distintos(s, columna)| == 0 <==> forall i :: 0 <= i < |s| ==> columna(s[i]).None?
  {
    if exists i :: 0 <= i < |s| && columna(s[i]).Some? {
      var i :| 0 <= i < |s| && columna(s[i]).Some?;
      assert columna(s[i]).value in Distintos(s, columna);
    }
  }

  /**
   * The index statistics over the cached period (every row when none is
   * cached): the row count, the sizes of the defence, enrolment and
   * closed-record scopes, and the distinct non-null student numbers,
   * program codes and teacher codes.
   */
  function EstadisticasIndice(s: seq<DatoAcademico>, gestionActual: Option<nat>): (e: Estadisticas)
    ensures var q := DeGestion(s, gestionActual);
      && e.totalRegistros == |q|
      && e.estudiantesUnicos == |Distintos(q, NroRegistroDe)|
      && e.conDefensaTesis == |ConDefensaTesis(q)|
      && e.matriculados == |Matriculados(q)|
      && e.actaCerrada == |ConActaCerrada(q)|
      && e.carrerasActivas == |Distintos(q, CodCarreraDe)|
      && e.docentesActivos == |Distintos(q, CodDocDe)|
    ensures var q := DeGestion(s, gestionActual);
      && e.estudiantesUnicos <= e.totalRegistros && e.carrerasActivas <= e.totalRegistros
      && e.docentesActivos <= e.totalRegistros
      && e.conDefensaTesis + Contar(q, SinDefensa) == e.totalRegistros
      && e.matriculados <= e.totalRegistros && e.actaCerrada <= e.totalRegistros
      && (e.estudiantesUnicos == 0 <==> forall i :: 0 <= i < |q| ==> q[i].nroRegistroEst.None?)
      && (e.carrerasActivas == 0 <==> forall i :: 0 <= i < |q| ==> q[i].codCarrera.None?)
      && (e.docentesActivos == 0 <==> forall i :: 0 <= i < |q| ==> q[i].codDoc.None?)
  {
    var q := DeGestion(s, gestionActual);
    DistintosAcotados(q, NroRegistroDe);
    DistintosAcotados(q, CodCarreraDe);
    DistintosAcotados(q, CodDocDe);
    DistintosVacio(q, NroRegistroDe);
    DistintosVacio(q, CodCarreraDe);
    DistintosVacio(q, CodDocDe);
    DefensaOSinDefensa(q);
    Estadisticas(|q|, |Distintos(q, NroRegistroDe)|, Contar(q, TieneDefensaTesis), Contar(q, EstaMatriculado),
                 Contar(q, TieneActaCerrada), |Distintos(q, CodCarreraDe)|, |Distintos(q, CodDocDe)|)
  }

  // One student

  datatype ResumenEstudiante = ResumenEstudiante(
    nroRegistroEst: Option<string>,
    nombreEst: Option<string>,
    generoEst: Option<string>,
    totalMaterias: nat,
    materiasAprobadas: nat,
    tieneDefensa: bool,
    fechaDefensa: Option<Fecha>,
    notaDefensa: Option<int>)

  /** A subject is passed with a grade of 51 or more; a row without a grade is not passed. */
  predicate Aprobada(d: DatoAcademico) {
    d.nota.Some? && d.nota.value >= 5100
  }

  /** The student's rows in the cached period, in the order they were stored. */
  function DatosDeEstudiante(s: seq<DatoAcademico>, nro: string, gestionActual: Option<nat>): (r: seq<DatoAcademico>)
    ensures forall d :: d in r <==> d in s && d.nroRegistroEst == Some(nro)
                                     && (gestionActual.Some? ==> d.gestionId == gestionActual.value)
  {
    Seleccionar(DeGestion(s, gestionActual), (d: DatoAcademico) => d.nroRegistroEst == Some(nro))
  }

  /** The defence date of the first row that has one. */
  function PrimeraDefensa(datos: seq<DatoAcademico>): (r: Option<Fecha>)
    ensures r.None? <==> forall d :: d in datos ==> d.fechaDefensa.None?
    ensures r.Some? ==> exists i :: 0 <= i < |datos| && datos[i].fechaDefensa == r
                                  && forall j :: 0 <= j < i ==> datos[j].fechaDefensa.None?
  {
    var tesis := Primero(datos, TieneDefensaTesis);
    if tesis.Some? then tesis.value.fechaDefensa else None
  }

  /** The defence grade of the first row that has one. */
  function PrimeraNotaDefensa(datos: seq<DatoAcademico>): (r: Option<int>)
    ensures r.None? <==> forall d :: d in datos ==> d.notaDefensa.None?
    ensures r.Some? ==> exists i :: 0 <= i < |datos| && datos[i].notaDefensa == r
                                  && forall j :: 0 <= j < i ==> datos[j].notaDefensa.None?
  {
    var conNota := Primero(datos, (d: DatoAcademico) => d.notaDefensa.Some?);
    if conNota.Some? then conNota.value.notaDefensa else None
  }

  /**
   * estudiante: no summary (a 404) when the student has no rows; otherwise
   * the first row's identity, the number of subjects and of passed ones, and
   * the first defence date and defence grade found among the rows.
   */
  function Estudiante(s: seq<DatoAcademico>, nro: string, gestionActual: Option<nat>): (r: Option<ResumenEstudiante>)
    ensures var q := DatosDeEstudiante(s, nro, gestionActual);
      && (r.None? <==> q == [])
      && (r.Some? ==>
            && r.value.nroRegistroEst == Some(nro) && r.value.nombreEst == q[0].nombreEst
            && r.value.generoEst == q[0].generoEst
            && r.value.totalMaterias == |q| && r.value.materiasAprobadas <= r.value.totalMaterias
            && r.value.materiasAprobadas == Contar(q, Aprobada)
            && (r.value.tieneDefensa <==> r.value.fechaDefensa.Some?)
            && (r.value.tieneDefensa <==> exists i :: 0 <= i < |q| && q[i].fechaDefensa.Some?)
            && (r.value.fechaDefensa.Some? ==>
                  exists i :: 0 <= i < |q| && q[i].fechaDefensa == r.value.fechaDefensa
                              && forall j :: 0 <= j < i ==> q[j].fechaDefensa.None?)
            && (r.value.notaDefensa.Some? <==> exists i :: 0 <= i < |q| && q[i].notaDefensa.Some?)
            && (r.value.notaDefensa.Some? ==>
                  exists i :: 0 <= i < |q| && q[i].notaDefensa == r.value.notaDefensa
                              && forall j :: 0 <= j < i ==> q[j].notaDefensa.None?))
  {
    var q := DatosDeEstudiante(s, nro, gestionActual);
    if q == [] then None
    else
      assert q[0] in q;
      var fecha := PrimeraDefensa(q);
      Some(ResumenEstudiante(q[0].nroRegistroEst, q[0].nombreEst, q[0].generoEst, |q|, Contar(q, Aprobada),
                             fecha.Some?, fecha, PrimeraNotaDefensa(q)))
  }

  /** Only graded rows can be passed, so the passed subjects are at most the graded ones. */
  lemma AprobadasConNota(s: seq<DatoAcademico>, nro: string, gestionActual: Option<nat>)
    requires Estudiante(s, nro, gestionActual).Some?
    ensures Estudiante(s, nro, gestionActual).value.materiasAprobadas
         <= Contar(DatosDeEstudiante(s, nro, gestionActual), (d: DatoAcademico) => d.nota.Some?)
  {
    ContarImplica(DatosDeEstudiante(s, nro, gestionActual), Aprobada, (d: DatoAcademico) => d.nota.Some?);
  }
}
