/**
 * The five reports and the filter data of ReportController.php, as the
 * values the controller hands to its views: an annual report per program,
 * a per-program head count, the state of each student, the teachers'
 * activities and a defence summary. The PDF rendering, the generation
 * timestamp and the stays in years (a floating-point month difference) are
 * not part of this model; the dates the stay would be computed from are.
 */
module Reportes {
  import opened Wrappers
  import opened Texto
  import opened Fechas
  import opened Reglas
  import opened Consultas
  import opened Ordenamiento
  import opened Registros
  import opened DatosAcademicos

  /** `Model::find($id)`: an id was given and a row has it. */
  predicate Encontrado(id: Option<nat>, ids: seq<nat>) {
    id.Some? && id.value in ids
  }

  /** `Programa::find($id)`. */
  function BuscarPorId(programas: seq<Programa>, id: Option<nat>): (r: Option<Programa>)
    ensures r.Some? ==> r.value in programas && Some(r.value.id) == id
    ensures r.None? ==> forall i :: 0 <= i < |programas| ==> Some(programas[i].id) != id
  {
    Primero(programas, (p: Programa) => Some(p.id) == id)
  }

  /** `$programa->cod_plan ?? 1`: the plan code, or the number 1 when there is none. */
  datatype Version = CodPlan(cod: string) | Uno

  function VersionDe(codPlan: Option<string>): Version {
    if codPlan.Some? then CodPlan(codPlan.value) else Uno
  }

  /** The academic rows of one program code in one period. */
  function DatosDeCarrera(s: seq<DatoAcademico>, gestionId: nat, codCarrera: Option<string>): (r: seq<DatoAcademico>)
    ensures forall d :: d in r <==> d in s && d.gestionId == gestionId && d.codCarrera == codCarrera
  {
    Seleccionar(s, (d: DatoAcademico) => d.gestionId == gestionId && d.codCarrera == codCarrera)
  }

  /** `Programa::where('cod_carrera', ...)->where('gestion_id', ...)->first()`. */
  function ProgramaDeCarrera(programas: seq<Programa>, gestionId: nat, codCarrera: Option<string>): (r: Option<Programa>)
    ensures r.Some? ==> r.value in programas && DeCarrera(r.value, gestionId, codCarrera)
    ensures r.None? <==> forall i :: 0 <= i < |programas| ==> !DeCarrera(programas[i], gestionId, codCarrera)
    ensures r.Some? ==> exists i :: 0 <= i < |programas| && programas[i] == r.value
                                   && forall j :: 0 <= j < i ==> !DeCarrera(programas[j], gestionId, codCarrera)
  {
    Primero(programas, (p: Programa) => DeCarrera(p, gestionId, codCarrera))
  }

  predicate DeCarrera(p: Programa, gestionId: nat, codCarrera: Option<string>) {
    Some(p.codCarrera) == codCarrera && p.gestionId == gestionId
  }

  // Earliest and latest dates, nulls ignored as Collection::min and max ignore them

  function Minima(s: seq<Option<Fecha>>): (r: Option<Fecha>)
    ensures r.None? <==> forall i :: 0 <= i < |s| ==> s[i].None?
    ensures r.Some? ==> r in s && forall i :: 0 <= i < |s| && s[i].Some? ==> AntesOIgual(r.value, s[i].value)
    decreases |s|
  {
    if s == [] then None
    else
      var resto := Minima(s[1..]);
      assert s == [s[0]] + s[1..];
      if s[0].None? then resto
      else if resto.None? || AntesOIgual(s[0].value, resto.value) then s[0]
      else resto
  }

  function Maxima(s: seq<Option<Fecha>>): (r: Option<Fecha>)
    ensures r.None? <==> forall i :: 0 <= i < |s| ==> s[i].None?
    ensures r.Some? ==> r in s && forall i :: 0 <= i < |s| && s[i].Some? ==> AntesOIgual(s[i].value, r.value)
    decreases |s|
  {
    if s == [] then None
    else
      var resto := Maxima(s[1..]);
      assert s == [s[0]] + s[1..];
      if s[0].None? then resto
      else if resto.None? || AntesOIgual(resto.value, s[0].value) then s[0]
      else resto
  }

  function FechasIni(datos: seq<DatoAcademico>): (r: seq<Option<Fecha>>)
    ensures |r| == |datos| && forall i :: 0 <= i < |datos| ==> r[i] == datos[i].fechaIni
  {
    seq(|datos|, i requires 0 <= i < |datos| => datos[i].fechaIni)
  }

  function FechasFin(datos: seq<DatoAcademico>): (r: seq<Option<Fecha>>)
    ensures |r| == |datos| && forall i :: 0 <= i < |datos| ==> r[i] == datos[i].fechaFin
  {
    seq(|datos|, i requires 0 <= i < |datos| => datos[i].fechaFin)
  }

  // Report 1: annual report of a program

  /** One student as SELECT DISTINCT nro_registro_est, nombre_est, genero_est lists them. */
  datatype Estudiante = Estudiante(registro: Option<string>, nombre: Option<string>, genero: Option<string>)

  function EstudianteDe(d: DatoAcademico): Estudiante {
    Estudiante(d.nroRegistroEst, d.nombreEst, d.generoEst)
  }

  function EstudiantesDe(datos: seq<DatoAcademico>): (r: seq<Estudiante>)
    ensures |r| == |datos| && forall i :: 0 <= i < |datos| ==> r[i] == EstudianteDe(datos[i])
  {
    seq(|datos|, i requires 0 <= i < |datos| => EstudianteDe(datos[i]))
  }

  /**
   * A line of the annual report. A missing conclusion date prints as
   * 'NO CONCLUYÓ'; each stay is computed from the pair of dates it holds and
   * is 'N/C' (or null, with the thesis) without one.
   */
  datatype FilaInforme = FilaInforme(
    estudiante: Estudiante,
    fechaIngreso: Option<Fecha>,
    fechaConclusion: Option<Fecha>,
    fechaTesis: Option<Fecha>,
    permanenciaEscolaridad: Option<(Fecha, Fecha)>,
    permanenciaConTesis: Option<(Fecha, Fecha)>)

  /** The rows of `datos` whose subject record is closed. */
  predicate Cerrada(d: DatoAcademico) { d.actaCerrada == Some("S") }

  /**
   * The line of one student, from that student's rows of the program:
   * entry is the earliest start date, conclusion the latest end date among
   * closed records, the thesis date the first defence date found.
   */
  function FilaDeEstudiante(est: Estudiante, datos: seq<DatoAcademico>): (f: FilaInforme)
    ensures f.estudiante == est
    ensures f.fechaIngreso.None? <==> forall i :: 0 <= i < |datos| ==> datos[i].fechaIni.None?
    ensures f.fechaIngreso.Some? ==> exists d :: d in datos && d.fechaIni == f.fechaIngreso
    ensures f.fechaIngreso.Some? ==> forall d :: d in datos && d.fechaIni.Some? ==> AntesOIgual(f.fechaIngreso.value, d.fechaIni.value)
    ensures f.fechaConclusion.None? <==> forall d :: d in datos && Cerrada(d) ==> d.fechaFin.None?
    ensures f.fechaConclusion.Some? ==> exists d :: d in datos && Cerrada(d) && d.fechaFin == f.fechaConclusion
    ensures f.fechaConclusion.Some? ==>
      forall d :: d in datos && Cerrada(d) && d.fechaFin.Some? ==> AntesOIgual(d.fechaFin.value, f.fechaConclusion.value)
    ensures f.fechaTesis.None? <==> forall d :: d in datos ==> d.fechaDefensa.None?
    ensures f.fechaTesis.Some? ==> exists i :: 0 <= i < |datos| && datos[i].fechaDefensa == f.fechaTesis
                                            && forall j :: 0 <= j < i ==> datos[j].fechaDefensa.None?
    ensures f.permanenciaEscolaridad.Some? <==> f.fechaIngreso.Some? && f.fechaConclusion.Some?
    ensures f.permanenciaConTesis.Some? <==> f.fechaIngreso.Some? && f.fechaTesis.Some?
  {
    var ingreso := Minima(FechasIni(datos));
    var cerradas := Seleccionar(datos, Cerrada);
    var conclusion := Maxima(FechasFin(cerradas));
    var fechaTesis := PrimeraDefensa(datos);
    assert conclusion.Some? ==> exists i :: 0 <= i < |cerradas| && cerradas[i].fechaFin == conclusion;
    IngresoEntreLosDatos(datos);
    ConclusionLaMayor(datos);
    FilaInforme(est, ingreso, conclusion, fechaTesis,
                if ingreso.Some? && conclusion.Some? then Some((ingreso.value, conclusion.value)) else None,
                if ingreso.Some? && fechaTesis.Some? then Some((ingreso.value, fechaTesis.value)) else None)
  }

  /** The entry date is one of the rows' start dates. */
  lemma IngresoEntreLosDatos(datos: seq<DatoAcademico>)
    ensures Minima(FechasIni(datos)).Some? ==> exists d :: d in datos && d.fechaIni == Minima(FechasIni(datos))
  {
    var m := Minima(FechasIni(datos));
    if m.Some? {
      var i :| 0 <= i < |datos| && FechasIni(datos)[i] == m;
      assert datos[i] in datos;
    }
  }

  /** The conclusion date is not before the end date of any closed row. */
  lemma ConclusionLaMayor(datos: seq<DatoAcademico>)
    ensures var c := Maxima(FechasFin(Seleccionar(datos, Cerrada)));
      c.Some? ==> forall d :: d in datos && Cerrada(d) && d.fechaFin.Some? ==> AntesOIgual(d.fechaFin.value, c.value)
  {
    var cerradas := Seleccionar(datos, Cerrada);
    var c := Maxima(FechasFin(cerradas));
    if c.Some? {
      forall d | d in datos && Cerrada(d) && d.fechaFin.Some? ensures AntesOIgual(d.fechaFin.value, c.value) {
        var i :| 0 <= i < |datos| && datos[i] == d;
        assert d in cerradas;
        var j :| 0 <= j < |cerradas| && cerradas[j] == d;
        assert FechasFin(cerradas)[j] == d.fechaFin;
      }
    }
  }

  /** The distinct students of some rows, each once. */
  function ListaEstudiantes(datos: seq<DatoAcademico>): (r: seq<Estudiante>)
    ensures forall e :: e in r <==> exists d :: d in datos && EstudianteDe(d) == e
    ensures forall i, j :: 0 <= i < j < |r| ==> r[i] != r[j]
  {
    var todos := EstudiantesDe(datos);
    assert forall e :: e in todos <==> exists d :: d in datos && EstudianteDe(d) == e by {
      forall e ensures e in todos <==> exists d :: d in datos && EstudianteDe(d) == e {
        if exists d :: d in datos && EstudianteDe(d) == e {
          var d :| d in datos && EstudianteDe(d) == e;
          var i :| 0 <= i < |datos| && datos[i] == d;
          assert todos[i] == e;
        }
      }
    }
    SinRepetir(todos)
  }

  /** A student's rows among the program's, by registration number. */
  function DatosDelRegistro(datos: seq<DatoAcademico>, registro: Option<string>): (r: seq<DatoAcademico>)
    ensures forall d :: d in r <==> d in datos && d.nroRegistroEst == registro
  {
    Seleccionar(datos, (d: DatoAcademico) => d.nroRegistroEst == registro)
  }

  /**
   * informeAnual: without an existing period and program, an error and no
   * report; otherwise one line per distinct student of the program in the
   * period, each from that student's rows.
   */
  function InformeAnual(s: seq<DatoAcademico>, gestiones: seq<nat>, programas: seq<Programa>,
                        gestionId: Option<nat>, programaId: Option<nat>): (r: Result<seq<FilaInforme>>)
    ensures r.Failure? <==> !Encontrado(gestionId, gestiones) || BuscarPorId(programas, programaId).None?
    ensures r.Success? ==>
      var datos := DatosDeCarrera(s, gestionId.value, Some(BuscarPorId(programas, programaId).value.codCarrera));
      var lista := ListaEstudiantes(datos);
      && |r.value| == |lista|
      && forall i :: 0 <= i < |lista| ==>
           r.value[i].estudiante == lista[i] && r.value[i] == FilaDeEstudiante(lista[i], DatosDelRegistro(datos, lista[i].registro))
  {
    var programa := BuscarPorId(programas, programaId);
    if !Encontrado(gestionId, gestiones) || programa.None? then Failure("Seleccione una gestión y programa válidos")
    else
      var datos := DatosDeCarrera(s, gestionId.value, Some(programa.value.codCarrera));
      var lista := ListaEstudiantes(datos);
      Success(seq(|lista|, i requires 0 <= i < |lista| => FilaDeEstudiante(lista[i], DatosDelRegistro(datos, lista[i].registro))))
  }

  // Head counts per program (reports 2 and 5)

  /** The registration numbers of the rows of one gender: DISTINCT (nro_registro_est, genero_est) counts these. */
  function RegistrosDeGenero(datos: seq<DatoAcademico>, genero: string): (r: set<Option<string>>)
    ensures forall n :: n in r <==> exists d :: d in datos && d.generoEst == Some(genero) && d.nroRegistroEst == n
  {
    set d | d in datos && d.generoEst == Some(genero) :: d.nroRegistroEst
  }

  /** Men and women together never outnumber the rows they come from. */
  lemma {:induction false} GenerosAcotados(datos: seq<DatoAcademico>)
    ensures |RegistrosDeGenero(datos, "M")| + |RegistrosDeGenero(datos, "F")| <= |datos|
  {
    if datos != [] {
      var t := datos[..|datos| - 1];
      var u := datos[|datos| - 1];
      assert datos == t + [u];
      GenerosAcotados(t);
      var m := if u.generoEst == Some("M") then {u.nroRegistroEst} else {};
      var f := if u.generoEst == Some("F") then {u.nroRegistroEst} else {};
      assert RegistrosDeGenero(datos, "M") <= RegistrosDeGenero(t, "M") + m;
      assert RegistrosDeGenero(datos, "F") <= RegistrosDeGenero(t, "F") + f;
      MenorOpcional(RegistrosDeGenero(datos, "M"), RegistrosDeGenero(t, "M") + m);
      MenorOpcional(RegistrosDeGenero(datos, "F"), RegistrosDeGenero(t, "F") + f);
    }
  }

  lemma MenorOpcional(a: set<Option<string>>, b: set<Option<string>>)
    requires a <= b
    ensures |a| <= |b|
  {
    assert b == a + (b - a);
  }

  /** A line of the program summaries; `edicion` is always 1. */
  datatype FilaPrograma = FilaPrograma(
    codigo: string,
    nombre: Option<string>,
    version: Version,
    edicion: nat,
    hombres: nat,
    mujeres: nat,
    total: nat)

  /**
   * The line of one program over its rows: men and women are distinct
   * registrations of each gender, and rows of any other or no gender are in
   * neither, so the total never exceeds the rows.
   */
  function Conteo(p: Programa, datos: seq<DatoAcademico>): (f: FilaPrograma)
    ensures f.codigo == p.codCarrera && f.nombre == p.nombreCarrera && f.edicion == 1
    ensures p.codPlan.None? ==> f.version == Uno
    ensures f.total == f.hombres + f.mujeres && f.total <= |datos|
    ensures f.hombres == |RegistrosDeGenero(datos, "M")| && f.mujeres == |RegistrosDeGenero(datos, "F")|
  {
    GenerosAcotados(datos);
    var h := |RegistrosDeGenero(datos, "M")|;
    var m := |RegistrosDeGenero(datos, "F")|;
    FilaPrograma(p.codCarrera, p.nombreCarrera, VersionDe(p.codPlan), 1, h, m, h + m)
  }

  /** The programs of the period, of one faculty when a truthy faculty code is given. */
  function ProgramasDeFacultad(programas: seq<Programa>, gestionId: nat, codFacultad: Option<string>): (r: seq<Programa>)
    ensures forall p :: p in r <==> p in programas && p.gestionId == gestionId && (Veraz(codFacultad) ==> p.codFacultad == codFacultad)
  {
    Seleccionar(programas, (p: Programa) => p.gestionId == gestionId && (Veraz(codFacultad) ==> p.codFacultad == codFacultad))
  }

  /** A summary with the faculty it is titled with. */
  datatype Resumen = Resumen(facultad: string, filas: seq<FilaPrograma>)

  const TodasLasFacultades := "Todas las Facultades"

  /**
   * The title as written: the 'nombre' of the first line, which is the
   * first program's name and not its faculty's.
   */
  function TituloComoEscrito(filas: seq<FilaPrograma>): string {
    if filas != [] && filas[0].nombre.Some? then filas[0].nombre.value else TodasLasFacultades
  }

  /** A faculty whose first program is named differently is titled with the program's name. */
  lemma TituloComoEscritoNombraPrograma(p: Programa, datos: seq<DatoAcademico>)
    requires p.nombreCarrera.Some? && p.nombreFacultad.Some? && p.nombreCarrera != p.nombreFacultad
    ensures TituloComoEscrito([Conteo(p, datos)]) != p.nombreFacultad.value
  {
  }

  /** The title evidently meant: the faculty of the first program listed, or all faculties. */
  function Titulo(programas: seq<Programa>): (r: string)
    ensures programas != [] && programas[0].nombreFacultad.Some? ==> r == programas[0].nombreFacultad.value
    ensures programas == [] ==> r == TodasLasFacultades
  {
    if programas != [] && programas[0].nombreFacultad.Some? then programas[0].nombreFacultad.value else TodasLasFacultades
  }

  function ConteoEnGestion(s: seq<DatoAcademico>, gestionId: nat, p: Programa): FilaPrograma {
    Conteo(p, DatosDeCarrera(s, gestionId, Some(p.codCarrera)))
  }

  /**
   * resumenProgramas: without an existing period, an error; otherwise one
   * line per program of the period (and faculty), in table order.
   */
  function ResumenProgramas(s: seq<DatoAcademico>, gestiones: seq<nat>, programas: seq<Programa>,
                            gestionId: Option<nat>, codFacultad: Option<string>): (r: Result<Resumen>)
    ensures r.Failure? <==> !Encontrado(gestionId, gestiones)
    ensures r.Success? ==>
      var ps := ProgramasDeFacultad(programas, gestionId.value, codFacultad);
      && |r.value.filas| == |ps|
      && (forall i :: 0 <= i < |ps| ==> r.value.filas[i] == ConteoEnGestion(s, gestionId.value, ps[i]))
      && r.value.facultad == Titulo(ps)
  {
    if !Encontrado(gestionId, gestiones) then Failure("Seleccione una gestión válida")
    else
      var ps := ProgramasDeFacultad(programas, gestionId.value, codFacultad);
      Success(Resumen(Titulo(ps), seq(|ps|, i requires 0 <= i < |ps| => ConteoEnGestion(s, gestionId.value, ps[i]))))
  }

  /** Defences per program: the same count over the rows with a defence date. */
  function DefensasEnGestion(s: seq<DatoAcademico>, gestionId: nat, p: Programa): FilaPrograma {
    Conteo(p, ConDefensaTesis(DatosDeCarrera(s, gestionId, Some(p.codCarrera))))
  }

  /** Those defended are among those enrolled, gender by gender. */
  lemma DefensasEntreInscritos(s: seq<DatoAcademico>, gestionId: nat, p: Programa)
    ensures DefensasEnGestion(s, gestionId, p).hombres <= ConteoEnGestion(s, gestionId, p).hombres
    ensures DefensasEnGestion(s, gestionId, p).mujeres <= ConteoEnGestion(s, gestionId, p).mujeres
  {
    var datos := DatosDeCarrera(s, gestionId, Some(p.codCarrera));
    var defendidos := ConDefensaTesis(datos);
    MenorOpcional(RegistrosDeGenero(defendidos, "M"), RegistrosDeGenero(datos, "M"));
    MenorOpcional(RegistrosDeGenero(defendidos, "F"), RegistrosDeGenero(datos, "F"));
  }

  predicate ConDefensas(f: FilaPrograma) { f.total > 0 }

  function SoloConDefensas(filas: seq<FilaPrograma>): (r: seq<FilaPrograma>)
    ensures forall f :: f in r <==> f in filas && f.total > 0
  {
    Seleccionar(filas, ConDefensas)
  }

  /** The defence line of each program, in the programs' order. */
  function FilasDefensas(s: seq<DatoAcademico>, gestionId: nat, ps: seq<Programa>): (r: seq<FilaPrograma>)
    ensures |r| == |ps| && forall i :: 0 <= i < |ps| ==> r[i] == DefensasEnGestion(s, gestionId, ps[i])
  {
    seq(|ps|, i requires 0 <= i < |ps| => DefensasEnGestion(s, gestionId, ps[i]))
  }

  /** The lines of some programs are exactly the lines of those programs. */
  lemma FilasDeProgramas(s: seq<DatoAcademico>, gestionId: nat, ps: seq<Programa>)
    ensures forall p :: p in ps ==> DefensasEnGestion(s, gestionId, p) in FilasDefensas(s, gestionId, ps)
    ensures forall f :: f in FilasDefensas(s, gestionId, ps) ==> exists p :: p in ps && f == DefensasEnGestion(s, gestionId, p)
  {
    var filas := FilasDefensas(s, gestionId, ps);
    forall p | p in ps ensures DefensasEnGestion(s, gestionId, p) in filas {
      var i :| 0 <= i < |ps| && ps[i] == p;
      assert filas[i] == DefensasEnGestion(s, gestionId, p);
    }
    forall f | f in filas ensures exists p :: p in ps && f == DefensasEnGestion(s, gestionId, p) {
      var i :| 0 <= i < |filas| && filas[i] == f;
      assert ps[i] in ps;
    }
  }

  /**
   * resumenDefensas: without an existing period, an error; otherwise the
   * defence line of every program of the period (and faculty) that has at
   * least one man or woman who defended, the others dropped.
   */
  function ResumenDefensas(s: seq<DatoAcademico>, gestiones: seq<nat>, programas: seq<Programa>,
                           gestionId: Option<nat>, codFacultad: Option<string>): (r: Result<seq<FilaPrograma>>)
    ensures r.Failure? <==> !Encontrado(gestionId, gestiones)
    ensures r.Success? ==>
      && (forall f :: f in r.value ==> f.total > 0 && f.total == f.hombres + f.mujeres)
      && forall p :: p in ProgramasDeFacultad(programas, gestionId.value, codFacultad)
                     && DefensasEnGestion(s, gestionId.value, p).total > 0
                     ==> DefensasEnGestion(s, gestionId.value, p) in r.value
    ensures r.Success? ==>
      var ps := ProgramasDeFacultad(programas, gestionId.value, codFacultad);
      && (forall f :: f in r.value ==> exists p :: p in ps && f == DefensasEnGestion(s, gestionId.value, p))
      && var filas := FilasDefensas(s, gestionId.value, ps);
         EnPosiciones(r.value, filas, Posiciones(filas, ConDefensas, 0))
  {
    if !Encontrado(gestionId, gestiones) then Failure("Seleccione una gestión válida")
    else
      var ps := ProgramasDeFacultad(programas, gestionId.value, codFacultad);
      var filas := FilasDefensas(s, gestionId.value, ps);
      FilasDeProgramas(s, gestionId.value, ps);
      SeleccionarEnOrden(filas, ConDefensas);
      Success(SoloConDefensas(filas))
  }

  // Report 3: state of the students

  /** One student of a program as SELECT DISTINCT nro, nombre, genero, cod_carrera lists them. */
  datatype Inscrito = Inscrito(estudiante: Estudiante, codCarrera: Option<string>)

  datatype FilaEstado = FilaEstado(
    inscrito: Inscrito,
    programaNombre: Option<string>,
    version: Version,
    edicion: nat,
    totalMaterias: nat,
    cursadas: nat,
    pendientes: nat)

  /** The distinct subject codes of some rows. */
  function Siglas(datos: seq<DatoAcademico>): set<string> {
    Distintos(datos, (d: DatoAcademico) => d.siglaMateria)
  }

  /** Closed subjects are among the student's subjects, so what is pending is their difference. */
  lemma CursadasEntreMaterias(datos: seq<DatoAcademico>)
    ensures |Siglas(Seleccionar(datos, Cerrada))| <= |Siglas(datos)|
  {
    var cerradas := Seleccionar(datos, Cerrada);
    forall v | v in Siglas(cerradas) ensures v in Siglas(datos) {
      var i :| 0 <= i < |cerradas| && cerradas[i].siglaMateria == Some(v);
      var j :| 0 <= j < |datos| && datos[j] == cerradas[i];
    }
    SubconjuntoMenor(Siglas(cerradas), Siglas(datos));
  }

  /**
   * The line of one student: the distinct subjects of that registration in
   * the program and period, those with a closed record, and the difference,
   * with the program's name and version when the program exists.
   */
  function FilaEstadoDe(s: seq<DatoAcademico>, programas: seq<Programa>, gestionId: nat, e: Inscrito): (f: FilaEstado)
    ensures var materias := Seleccionar(DatosDeCarrera(s, gestionId, e.codCarrera),
                                         (d: DatoAcademico) => d.nroRegistroEst == e.estudiante.registro);
      && f.inscrito == e && f.edicion == 1
      && f.totalMaterias == |Siglas(materias)| && f.cursadas == |Siglas(Seleccionar(materias, Cerrada))|
      && f.cursadas + f.pendientes == f.totalMaterias
  {
    var materias := Seleccionar(DatosDeCarrera(s, gestionId, e.codCarrera),
                                (d: DatoAcademico) => d.nroRegistroEst == e.estudiante.registro);
    var total := |Siglas(materias)|;
    var cursadas := |Siglas(Seleccionar(materias, Cerrada))|;
    CursadasEntreMaterias(materias);
    var programa := ProgramaDeCarrera(programas, gestionId, e.codCarrera);
    FilaEstado(e, if programa.Some? then programa.value.nombreCarrera else None,
               if programa.Some? then VersionDe(programa.value.codPlan) else Uno, 1, total, cursadas, total - cursadas)
  }

  function InscritoDe(d: DatoAcademico): Inscrito {
    Inscrito(EstudianteDe(d), d.codCarrera)
  }

  /** The distinct (student, program) pairs of some rows, each once. */
  function ListaInscritos(datos: seq<DatoAcademico>): (r: seq<Inscrito>)
    ensures forall e :: e in r ==> exists d :: d in datos && InscritoDe(d) == e
    ensures forall d :: d in datos ==> InscritoDe(d) in r
    ensures forall i, j :: 0 <= i < j < |r| ==> r[i] != r[j]
  {
    var todos := seq(|datos|, i requires 0 <= i < |datos| => InscritoDe(datos[i]));
    assert forall d :: d in datos ==> InscritoDe(d) in todos by {
      forall d | d in datos ensures InscritoDe(d) in todos {
        var i :| 0 <= i < |datos| && datos[i] == d;
        assert todos[i] == InscritoDe(d);
      }
    }
    assert forall e :: e in todos ==> exists d :: d in datos && InscritoDe(d) == e by {
      forall e | e in todos ensures exists d :: d in datos && InscritoDe(d) == e {
        var i :| 0 <= i < |todos| && todos[i] == e;
        assert datos[i] in datos;
      }
    }
    SinRepetir(todos)
  }

  /** `when($programaId, ...)`: a request id is truthy unless absent or 0. */
  predicate IdVeraz(id: Option<nat>) { id.Some? && id.value != 0 }

  /** The rows estadoAlumnos lists students from: the period's, of one program when one is asked for. */
  function DatosEstado(s: seq<DatoAcademico>, programas: seq<Programa>, gestionId: nat, programaId: Option<nat>)
    : (r: seq<DatoAcademico>)
    requires IdVeraz(programaId) ==> BuscarPorId(programas, programaId).Some?
    ensures forall d :: d in r ==> d in s && d.gestionId == gestionId
    ensures IdVeraz(programaId) ==>
      forall d :: d in r ==> d.codCarrera == Some(BuscarPorId(programas, programaId).value.codCarrera)
  {
    if IdVeraz(programaId) then DatosDeCarrera(s, gestionId, Some(BuscarPorId(programas, programaId).value.codCarrera))
    else Seleccionar(s, (d: DatoAcademico) => d.gestionId == gestionId)
  }

  /**
   * estadoAlumnos: without an existing period, an error. A truthy program id
   * that names no program reads a property of null, which the framework
   * turns into an exception. Otherwise one line per distinct student of the
   * period (of that program), none with more closed than total subjects.
   */
  function EstadoAlumnos(s: seq<DatoAcademico>, gestiones: seq<nat>, programas: seq<Programa>,
                         gestionId: Option<nat>, programaId: Option<nat>): (r: Result<seq<FilaEstado>>)
    ensures r.Failure? <==> !Encontrado(gestionId, gestiones) || (IdVeraz(programaId) && BuscarPorId(programas, programaId).None?)
    ensures r.Success? ==>
      var lista := ListaInscritos(DatosEstado(s, programas, gestionId.value, programaId));
      && |r.value| == |lista|
      && forall i :: 0 <= i < |lista| ==> r.value[i] == FilaEstadoDe(s, programas, gestionId.value, lista[i])
  {
    if !Encontrado(gestionId, gestiones) then Failure("Seleccione una gestión válida")
    else if IdVeraz(programaId) && BuscarPorId(programas, programaId).None? then Failure("Attempt to read property on null")
    else
      var lista := ListaInscritos(DatosEstado(s, programas, gestionId.value, programaId));
      Success(seq(|lista|, i requires 0 <= i < |lista| => FilaEstadoDe(s, programas, gestionId.value, lista[i])))
  }

  /**
   * Every line of the state report has no more closed subjects than
   * subjects, and with a program asked for, every line is of that program.
   */
  lemma EstadoAlumnosCorrecto(s: seq<DatoAcademico>, gestiones: seq<nat>, programas: seq<Programa>,
                              gestionId: Option<nat>, programaId: Option<nat>)
    requires EstadoAlumnos(s, gestiones, programas, gestionId, programaId).Success?
    ensures var filas := EstadoAlumnos(s, gestiones, programas, gestionId, programaId).value;
      && (forall f :: f in filas ==> f.cursadas <= f.totalMaterias && f.pendientes == f.totalMaterias - f.cursadas)
      && (IdVeraz(programaId) ==>
            forall f :: f in filas ==> f.inscrito.codCarrera == Some(BuscarPorId(programas, programaId).value.codCarrera))
  {
    var datos := DatosEstado(s, programas, gestionId.value, programaId);
    var lista := ListaInscritos(datos);
    var filas := EstadoAlumnos(s, gestiones, programas, gestionId, programaId).value;
    forall f | f in filas
      ensures f.cursadas <= f.totalMaterias && f.pendientes == f.totalMaterias - f.cursadas
      ensures IdVeraz(programaId) ==> f.inscrito.codCarrera == Some(BuscarPorId(programas, programaId).value.codCarrera)
    {
      var i :| 0 <= i < |filas| && filas[i] == f;
      assert f == FilaEstadoDe(s, programas, gestionId.value, lista[i]);
      assert lista[i] in lista;
    }
  }

  // Report 4: teachers' activities

  datatype Actividad = Actividad(
    codDocente: Option<string>,
    nombreDocente: Option<string>,
    genero: Option<string>,
    programaCodigo: Option<string>,
    programaNombre: Option<string>,
    version: Version,
    edicion: nat,
    siglaMateria: Option<string>,
    nombreMateria: Option<string>,
    fechaInicio: Option<Fecha>,
    fechaFinal: Option<Fecha>)

  function ActividadDe(programas: seq<Programa>, gestionId: nat, d: DatoAcademico): (a: Actividad)
    ensures a.codDocente == d.codDoc && a.siglaMateria == d.siglaMateria && a.edicion == 1
  {
    var programa := ProgramaDeCarrera(programas, gestionId, d.codCarrera);
    Actividad(d.codDoc, d.nombreDoc, d.generoDoc, d.codCarrera, if programa.Some? then programa.value.nombreCarrera else None,
              if programa.Some? then VersionDe(programa.value.codPlan) else Uno, 1, d.siglaMateria, d.nombreMateria,
              d.fechaIni, d.fechaFin)
  }

  /** `Docente::find($id)`. */
  function DocentePorId(docentes: seq<Docente>, id: Option<nat>): (r: Option<Docente>)
    ensures r.Some? ==> r.value in docentes && Some(r.value.id) == id
    ensures r.None? ==> forall i :: 0 <= i < |docentes| ==> Some(docentes[i].id) != id
  {
    Primero(docentes, (d: Docente) => Some(d.id) == id)
  }

  /** The teacher code asked for: that of the teacher a truthy id names, if any. */
  function CodigoPedido(docentes: seq<Docente>, docenteId: Option<nat>): Option<string> {
    if IdVeraz(docenteId) && DocentePorId(docentes, docenteId).Some? then Some(DocentePorId(docentes, docenteId).value.codDoc)
    else None
  }

  /** A row of period `g` with a teacher code, that code when one is asked for. */
  function DeDocenteEnGestion(g: nat, cod: Option<string>): DatoAcademico -> bool {
    (d: DatoAcademico) => d.gestionId == g && d.codDoc.Some? && (cod.Some? ==> d.codDoc == cod)
  }

  /**
   * reporteDocentes: without an existing period, an error; a truthy teacher
   * id naming no teacher throws. Otherwise one activity per row of the
   * period that has a teacher code (that teacher's code, when one is asked
   * for), in table order.
   */
  function ReporteDocentes(s: seq<DatoAcademico>, gestiones: seq<nat>, docentes: seq<Docente>, programas: seq<Programa>,
                           gestionId: Option<nat>, docenteId: Option<nat>): (r: Result<seq<Actividad>>)
    ensures r.Failure? <==> !Encontrado(gestionId, gestiones) || (IdVeraz(docenteId) && DocentePorId(docentes, docenteId).None?)
    ensures r.Success? ==> forall a :: a in r.value ==> a.codDocente.Some?
    ensures r.Success? && IdVeraz(docenteId) ==>
      forall a :: a in r.value ==> a.codDocente == Some(DocentePorId(docentes, docenteId).value.codDoc)
    ensures r.Success? ==>
      var q := DeDocenteEnGestion(gestionId.value, CodigoPedido(docentes, docenteId));
      var idx := Posiciones(s, q, 0);
      && (forall k :: 0 <= k < |s| ==> (k in idx <==> q(s[k])))
      && |r.value| == |idx|
      && forall i :: 0 <= i < |idx| ==> r.value[i] == ActividadDe(programas, gestionId.value, s[idx[i]])
  {
    if !Encontrado(gestionId, gestiones) then Failure("Seleccione una gestión válida")
    else if IdVeraz(docenteId) && DocentePorId(docentes, docenteId).None? then Failure("Attempt to read property on null")
    else
      var g := gestionId.value;
      var q := DeDocenteEnGestion(g, CodigoPedido(docentes, docenteId));
      var datos := Seleccionar(s, q);
      ActividadesDelDocente(s, programas, g, CodigoPedido(docentes, docenteId));
      ActividadesEnOrden(s, programas, g, q);
      Success(Actividades(programas, g, datos))
  }

  function Actividades(programas: seq<Programa>, g: nat, datos: seq<DatoAcademico>): (r: seq<Actividad>)
    ensures |r| == |datos| && forall i :: 0 <= i < |datos| ==> r[i] == ActividadDe(programas, g, datos[i])
  {
    seq(|datos|, i requires 0 <= i < |datos| => ActividadDe(programas, g, datos[i]))
  }

  /** Each activity of the rows of a teacher in a period carries a teacher code, the one asked for if any. */
  lemma ActividadesDelDocente(s: seq<DatoAcademico>, programas: seq<Programa>, g: nat, cod: Option<string>)
    ensures forall a :: a in Actividades(programas, g, Seleccionar(s, DeDocenteEnGestion(g, cod))) ==>
      a.codDocente.Some? && (cod.Some? ==> a.codDocente == cod)
  {
    var datos := Seleccionar(s, DeDocenteEnGestion(g, cod));
    var r := Actividades(programas, g, datos);
    forall a | a in r ensures a.codDocente.Some? && (cod.Some? ==> a.codDocente == cod) {
      var i :| 0 <= i < |r| && r[i] == a;
      assert DeDocenteEnGestion(g, cod)(datos[i]);
    }
  }

  /** The activities of the rows a `where` keeps are those of the rows at the positions that satisfy it, in table order. */
  lemma ActividadesEnOrden(s: seq<DatoAcademico>, programas: seq<Programa>, g: nat, q: DatoAcademico -> bool)
    ensures var idx := Posiciones(s, q, 0);
      var r := Actividades(programas, g, Seleccionar(s, q));
      && (forall k :: 0 <= k < |s| ==> (k in idx <==> q(s[k])))
      && |r| == |idx|
      && forall i :: 0 <= i < |idx| ==> r[i] == ActividadDe(programas, g, s[idx[i]])
  {
    var sel := Seleccionar(s, q);
    var idx := Posiciones(s, q, 0);
    var r := Actividades(programas, g, sel);
    SeleccionarEnOrden(s, q);
    assert |idx| == |sel| == |r|;
    forall i | 0 <= i < |idx| ensures r[i] == ActividadDe(programas, g, s[idx[i]]) {
      assert sel[i] == s[idx[i]];
    }
    PosicionesDesdeCero(s, q);
  }

  // Filter data

  /** ORDER BY a nullable name: nulls first, then by the text. */
  predicate NombreAntes(a: Option<string>, b: Option<string>) {
    a.None? || (b.Some? && !MenorTexto(b.value, a.value))
  }

  predicate CarreraAntes(a: Programa, b: Programa) { NombreAntes(a.nombreCarrera, b.nombreCarrera) }

  predicate DocenteAntes(a: Docente, b: Docente) { NombreAntes(a.nombreDoc, b.nombreDoc) }

  lemma {:induction false} NombreAntesEsOrden(a: Option<string>, b: Option<string>, c: Option<string>)
    ensures NombreAntes(a, b) || NombreAntes(b, a)
    ensures NombreAntes(a, b) && NombreAntes(b, c) ==> NombreAntes(a, c)
  {
    if a.Some? && b.Some? {
      MenorTextoTotal(a.value, b.value);
    }
    if a.Some? && b.Some? && c.Some? && NombreAntes(a, b) && NombreAntes(b, c) && MenorTexto(c.value, a.value) {
      MenorTextoTotal(a.value, b.value);
      if a.value != b.value {
        MenorTextoTransitivo(c.value, a.value, b.value);
      }
    }
  }

  lemma OrdenesPorNombre()
    ensures Total(CarreraAntes) && Transitiva(CarreraAntes)
    ensures Total(DocenteAntes) && Transitiva(DocenteAntes)
    ensures Total(FacultadAntes) && Transitiva(FacultadAntes)
  {
    forall a: Programa, b: Programa ensures CarreraAntes(a, b) || CarreraAntes(b, a) {
      NombreAntesEsOrden(a.nombreCarrera, b.nombreCarrera, b.nombreCarrera);
    }
    forall a: Programa, b: Programa, c: Programa | CarreraAntes(a, b) && CarreraAntes(b, c) ensures CarreraAntes(a, c) {
      NombreAntesEsOrden(a.nombreCarrera, b.nombreCarrera, c.nombreCarrera);
    }
    forall a: Docente, b: Docente ensures DocenteAntes(a, b) || DocenteAntes(b, a) {
      NombreAntesEsOrden(a.nombreDoc, b.nombreDoc, b.nombreDoc);
    }
    forall a: Docente, b: Docente, c: Docente | DocenteAntes(a, b) && DocenteAntes(b, c) ensures DocenteAntes(a, c) {
      NombreAntesEsOrden(a.nombreDoc, b.nombreDoc, c.nombreDoc);
    }
    forall a: (Option<string>, Option<string>), b: (Option<string>, Option<string>)
      ensures FacultadAntes(a, b) || FacultadAntes(b, a)
    {
      NombreAntesEsOrden(a.1, b.1, b.1);
    }
    forall a: (Option<string>, Option<string>), b: (Option<string>, Option<string>), c: (Option<string>, Option<string>)
      | FacultadAntes(a, b) && FacultadAntes(b, c)
      ensures FacultadAntes(a, c)
    {
      NombreAntesEsOrden(a.1, b.1, c.1);
    }
  }

  /** The JSON getData answers with. */
  datatype DatosFiltro =
    | ListaProgramas(programas: seq<Programa>)
    | ListaDocentes(docentes: seq<Docente>)
    | ListaFacultades(facultades: seq<(Option<string>, Option<string>)>)
    | ListaVacia

  function Facultad(p: Programa): (Option<string>, Option<string>) { (p.codFacultad, p.nombreFacultad) }

  predicate FacultadAntes(a: (Option<string>, Option<string>), b: (Option<string>, Option<string>)) { NombreAntes(a.1, b.1) }

  /** The faculty pair of each program, in table order. */
  function FacultadesDe(ps: seq<Programa>): (r: seq<(Option<string>, Option<string>)>)
    ensures forall x :: x in r <==> exists p :: p in ps && Facultad(p) == x
  {
    var r := seq(|ps|, i requires 0 <= i < |ps| => Facultad(ps[i]));
    assert forall x :: x in r <==> exists p :: p in ps && Facultad(p) == x by {
      forall x ensures x in r <==> exists p :: p in ps && Facultad(p) == x {
        if exists p :: p in ps && Facultad(p) == x {
          var p :| p in ps && Facultad(p) == x;
          var i :| 0 <= i < |ps| && ps[i] == p;
          assert r[i] == x;
        }
      }
    }
    r
  }

  /** Sorting keeps the same elements. */
  lemma OrdenarConserva<T>(s: seq<T>, va: (T, T) -> bool, x: T)
    ensures x in Ordenar(s, va) <==> x in s
  {
    assert x in Ordenar(s, va) <==> x in multiset(Ordenar(s, va));
  }

  /** The distinct (code, name) faculty pairs of the period's programs, ordered by name. */
  function Facultades(programas: seq<Programa>, gestionId: Option<nat>): (r: seq<(Option<string>, Option<string>)>)
    ensures Ordenada(r, FacultadAntes)
    ensures forall i, j :: 0 <= i < j < |r| ==> r[i] != r[j]
    ensures forall x :: x in r <==> exists p :: p in programas && Some(p.gestionId) == gestionId && Facultad(p) == x
  {
    OrdenesPorNombre();
    var ps := Seleccionar(programas, (p: Programa) => Some(p.gestionId) == gestionId);
    var fs := SinRepetir(FacultadesDe(ps));
    OrdenarOrdena(fs, FacultadAntes);
    var r := Ordenar(fs, FacultadAntes);
    SinRepetidosReordenada(fs, r);
    assert forall x :: x in r <==> x in fs by {
      forall x ensures x in r <==> x in fs {
        OrdenarConserva(fs, FacultadAntes, x);
      }
    }
    r
  }

  /**
   * getData: the period's programs or teachers ordered by name, or its
   * distinct faculties ordered by name; any other `tipo` gives an empty list.
   */
  function DatosParaFiltros(tipo: Option<string>, gestionId: Option<nat>, programas: seq<Programa>, docentes: seq<Docente>)
    : (r: DatosFiltro)
    ensures tipo != Some("programas") && tipo != Some("docentes") && tipo != Some("facultades") ==> r == ListaVacia
    ensures tipo == Some("programas") ==>
      r.ListaProgramas? && Ordenada(r.programas, CarreraAntes)
      && forall p :: p in r.programas <==> p in programas && Some(p.gestionId) == gestionId
    ensures tipo == Some("docentes") ==>
      r.ListaDocentes? && Ordenada(r.docentes, DocenteAntes)
      && forall d :: d in r.docentes <==> d in docentes && Some(d.gestionId) == gestionId
    ensures tipo == Some("facultades") ==> r == ListaFacultades(Facultades(programas, gestionId))
  {
    OrdenesPorNombre();
    match tipo
    case Some("programas") =>
      var ps := Seleccionar(programas, (p: Programa) => Some(p.gestionId) == gestionId);
      OrdenarOrdena(ps, CarreraAntes);
      var r := Ordenar(ps, CarreraAntes);
      assert forall p :: p in r <==> p in ps by {
        forall p ensures p in r <==> p in ps {
          assert p in r <==> p in multiset(r);
        }
      }
      ListaProgramas(r)
    case Some("docentes") =>
      var ds := Seleccionar(docentes, (d: Docente) => Some(d.gestionId) == gestionId);
      OrdenarOrdena(ds, DocenteAntes);
      var r := Ordenar(ds, DocenteAntes);
      assert forall d :: d in r <==> d in ds by {
        forall d ensures d in r <==> d in ds {
          assert d in r <==> d in multiset(r);
        }
      }
      ListaDocentes(r)
    case Some("facultades") =>
      ListaFacultades(Facultades(programas, gestionId))
    case _ => ListaVacia
  }
}
