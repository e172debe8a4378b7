/**
 * The records the spreadsheet import fills (app/Models/Programa.php,
 * Docente.php, DatoAcademico.php, Certificacion.php, Tesis.php) and what
 * their models compute without writing: predicates, scopes, relations,
 * lookups, the CERT-/TESIS- numbering, the thesis title and the average.
 * Grades are kept in hundredths; `anio` on a certificate or thesis is the
 * year of its `created_at`.
 */
module Registros {
  import opened Wrappers
  import opened Texto
  import opened Fechas
  import opened Consultas

  datatype Programa = Programa(
    id: nat,
    codFacultad: Option<string>,
    nombreFacultad: Option<string>,
    codCarrera: string,
    nombreCarrera: Option<string>,
    codPlan: Option<string>,
    tipo: string,
    modalidad: string,
    estado: string,
    coordinadorId: Option<nat>,
    gestionId: nat)

  datatype Docente = Docente(
    id: nat,
    codDoc: string,
    nombreDoc: Option<string>,
    generoDoc: Option<string>,
    email: Option<string>,
    telefono: Option<string>,
    estado: string,
    gestionId: nat)

  /** One row of a spreadsheet as stored: one student in one subject. */
  datatype DatoAcademico = DatoAcademico(
    id: nat,
    codFacultad: Option<string>,
    nombreFacultad: Option<string>,
    codCarrera: Option<string>,
    codPlan: Option<string>,
    nombreCarrera: Option<string>,
    codMateriaPlan: Option<string>,
    codGrupo: Option<string>,
    codEdicion: Option<string>,
    codModalidad: Option<string>,
    siglaMateria: Option<string>,
    nombreMateria: Option<string>,
    fechaIni: Option<Fecha>,
    fechaFin: Option<Fecha>,
    codDoc: Option<string>,
    nombreDoc: Option<string>,
    generoDoc: Option<string>,
    nroRegistroEst: Option<string>,
    nombreEst: Option<string>,
    generoEst: Option<string>,
    nota: Option<int>,
    actaCerrada: Option<string>,
    matriculado: Option<string>,
    fechaDefensa: Option<Fecha>,
    notaDefensa: Option<int>,
    cargaId: nat,
    gestionId: nat)

  datatype Certificacion = Certificacion(
    id: nat,
    numero: string,
    nroRegistroEst: Option<string>,
    nombreEst: Option<string>,
    generoEst: Option<string>,
    nota: Option<int>,
    notaDefensa: Option<int>,
    fechaDefensa: Option<Fecha>,
    fechaEmision: Option<Fecha>,
    promedio: Option<int>,
    estado: string,
    programaId: nat,
    gestionId: Option<nat>,
    anio: nat)

  datatype Tesis = Tesis(
    id: nat,
    codigo: string,
    titulo: Option<string>,
    nroRegistroEst: Option<string>,
    nombreEst: Option<string>,
    fechaDefensa: Option<Fecha>,
    notaDefensa: Option<int>,
    estado: string,
    tutorId: Option<nat>,
    programaId: nat,
    gestionId: Option<nat>,
    anio: nat)

  // Predicates of one academic row

  predicate TieneDefensaTesis(d: DatoAcademico) { d.fechaDefensa.Some? }

  predicate EstaMatriculado(d: DatoAcademico) { d.matriculado == Some("S") }

  predicate TieneActaCerrada(d: DatoAcademico) { d.actaCerrada == Some("S") }

  // Scopes: each keeps exactly the rows its condition holds for, in table order

  function ConDefensaTesis(s: seq<DatoAcademico>): (r: seq<DatoAcademico>)
    ensures forall d :: d in r <==> d in s && TieneDefensaTesis(d)
  {
    Seleccionar(s, TieneDefensaTesis)
  }

  function Matriculados(s: seq<DatoAcademico>): (r: seq<DatoAcademico>)
    ensures forall d :: d in r <==> d in s && EstaMatriculado(d)
  {
    Seleccionar(s, EstaMatriculado)
  }

  function ConActaCerrada(s: seq<DatoAcademico>): (r: seq<DatoAcademico>)
    ensures forall d :: d in r <==> d in s && TieneActaCerrada(d)
  {
    Seleccionar(s, TieneActaCerrada)
  }

  function PorDocente(s: seq<DatoAcademico>, codDoc: Option<string>): (r: seq<DatoAcademico>)
    ensures forall d :: d in r <==> d in s && d.codDoc == codDoc
  {
    Seleccionar(s, (d: DatoAcademico) => d.codDoc == codDoc)
  }

  function PorCarrera(s: seq<DatoAcademico>, codCarrera: Option<string>): (r: seq<DatoAcademico>)
    ensures forall d :: d in r <==> d in s && d.codCarrera == codCarrera
  {
    Seleccionar(s, (d: DatoAcademico) => d.codCarrera == codCarrera)
  }

  function ProgramasActivos(s: seq<Programa>): (r: seq<Programa>)
    ensures forall p :: p in r <==> p in s && p.estado == "activo"
  {
    Seleccionar(s, (p: Programa) => p.estado == "activo")
  }

  function ProgramasPorTipo(s: seq<Programa>, tipo: string): (r: seq<Programa>)
    ensures forall p :: p in r <==> p in s && p.tipo == tipo
  {
    Seleccionar(s, (p: Programa) => p.tipo == tipo)
  }

  function DocentesActivos(s: seq<Docente>): (r: seq<Docente>)
    ensures forall d :: d in r <==> d in s && d.estado == "activo"
  {
    Seleccionar(s, (d: Docente) => d.estado == "activo")
  }

  function CertificacionesEmitidas(s: seq<Certificacion>): (r: seq<Certificacion>)
    ensures forall c :: c in r <==> c in s && c.estado == "emitido"
  {
    Seleccionar(s, (c: Certificacion) => c.estado == "emitido")
  }

  function TesisDefendidas(s: seq<Tesis>): (r: seq<Tesis>)
    ensures forall t :: t in r <==> t in s && t.estado == "defendida"
  {
    Seleccionar(s, (t: Tesis) => t.estado == "defendida")
  }

  function TesisAprobadas(s: seq<Tesis>): (r: seq<Tesis>)
    ensures forall t :: t in r <==> t in s && t.estado == "aprobada"
  {
    Seleccionar(s, (t: Tesis) => t.estado == "aprobada")
  }

  // Relations and lookups between the tables

  /** Programs are unique per (cod_carrera, gestion_id), as the table's unique key demands. */
  ghost predicate ClavesProgramaUnicas(s: seq<Programa>) {
    forall i, j :: 0 <= i < j < |s| ==> s[i].codCarrera != s[j].codCarrera || s[i].gestionId != s[j].gestionId
  }

  /** Teachers are unique per (cod_doc, gestion_id). */
  ghost predicate ClavesDocenteUnicas(s: seq<Docente>) {
    forall i, j :: 0 <= i < j < |s| ==> s[i].codDoc != s[j].codDoc || s[i].gestionId != s[j].gestionId
  }

  predicate DelPrograma(p: Programa, d: DatoAcademico) {
    d.codCarrera == Some(p.codCarrera) && d.gestionId == p.gestionId
  }

  predicate DelDocente(doc: Docente, d: DatoAcademico) {
    d.codDoc == Some(doc.codDoc) && d.gestionId == doc.gestionId
  }

  /** A program's academic rows: same career code and same term. */
  function DatosDePrograma(p: Programa, datos: seq<DatoAcademico>): (r: seq<DatoAcademico>)
    ensures forall d :: d in r <==> d in datos && d.codCarrera == Some(p.codCarrera) && d.gestionId == p.gestionId
  {
    Seleccionar(datos, (d: DatoAcademico) => DelPrograma(p, d))
  }

  /** A teacher's academic rows: same teacher code and same term. */
  function DatosDeDocente(doc: Docente, datos: seq<DatoAcademico>): (r: seq<DatoAcademico>)
    ensures forall d :: d in r <==> d in datos && d.codDoc == Some(doc.codDoc) && d.gestionId == doc.gestionId
  {
    Seleccionar(datos, (d: DatoAcademico) => DelDocente(doc, d))
  }

  /** The program of a row: the first with its career code in its term. */
  function ObtenerPrograma(d: DatoAcademico, programas: seq<Programa>): (r: Option<Programa>)
    ensures r.Some? ==> r.value in programas && DelPrograma(r.value, d)
    ensures r.None? <==> forall i :: 0 <= i < |programas| ==> !DelPrograma(programas[i], d)
  {
    Primero(programas, (p: Programa) => DelPrograma(p, d))
  }

  /** The teacher of a row: the first with its teacher code in its term. */
  function ObtenerDocente(d: DatoAcademico, docentes: seq<Docente>): (r: Option<Docente>)
    ensures r.Some? ==> r.value in docentes && DelDocente(r.value, d)
    ensures r.None? <==> forall i :: 0 <= i < |docentes| ==> !DelDocente(docentes[i], d)
  {
    Primero(docentes, (doc: Docente) => DelDocente(doc, d))
  }

  /** Some program with id `id` has the career code `cod` (the `whereHas('programa', ...)` join). */
  predicate ProgramaConCodigo(programas: seq<Programa>, id: nat, cod: Option<string>) {
    exists i :: 0 <= i < |programas| && programas[i].id == id && Some(programas[i].codCarrera) == cod
  }

  predicate CertificacionDe(c: Certificacion, d: DatoAcademico, programas: seq<Programa>) {
    c.nroRegistroEst == d.nroRegistroEst && c.gestionId == Some(d.gestionId)
      && ProgramaConCodigo(programas, c.programaId, d.codCarrera)
  }

  predicate TesisDe(t: Tesis, d: DatoAcademico, programas: seq<Programa>) {
    t.nroRegistroEst == d.nroRegistroEst && t.gestionId == Some(d.gestionId)
      && ProgramaConCodigo(programas, t.programaId, d.codCarrera)
  }

  /** The certificate of a row: same student, same term, and a program with the row's career code. */
  function ObtenerCertificacion(d: DatoAcademico, certs: seq<Certificacion>, programas: seq<Programa>): (r: Option<Certificacion>)
    ensures r.Some? ==> (r.value in certs && r.value.nroRegistroEst == d.nroRegistroEst
      && r.value.gestionId == Some(d.gestionId) && ProgramaConCodigo(programas, r.value.programaId, d.codCarrera))
    ensures r.None? <==> forall i :: 0 <= i < |certs| ==> !CertificacionDe(certs[i], d, programas)
  {
    Primero(certs, (c: Certificacion) => CertificacionDe(c, d, programas))
  }

  /** The thesis of a row, matched the same way. */
  function ObtenerTesis(d: DatoAcademico, tesis: seq<Tesis>, programas: seq<Programa>): (r: Option<Tesis>)
    ensures r.Some? ==> (r.value in tesis && r.value.nroRegistroEst == d.nroRegistroEst
      && r.value.gestionId == Some(d.gestionId) && ProgramaConCodigo(programas, r.value.programaId, d.codCarrera))
    ensures r.None? <==> forall i :: 0 <= i < |tesis| ==> !TesisDe(tesis[i], d, programas)
  {
    Primero(tesis, (t: Tesis) => TesisDe(t, d, programas))
  }

  /**
   * With unique program keys, the relation and the lookup agree: a row is
   * among a program's rows exactly when the lookup from the row finds that
   * program.
   */
  lemma ProgramaYDatosSeCorresponden(p: Programa, d: DatoAcademico, programas: seq<Programa>, datos: seq<DatoAcademico>)
    requires ClavesProgramaUnicas(programas) && p in programas && d in datos
    ensures d in DatosDePrograma(p, datos) <==> ObtenerPrograma(d, programas) == Some(p)
  {
    var r := ObtenerPrograma(d, programas);
    if DelPrograma(p, d) {
      var k :| 0 <= k < |programas| && programas[k] == p;
      assert r.Some?;
      var j :| 0 <= j < |programas| && programas[j] == r.value;
      assert j == k;
    }
  }

  /** The same correspondence between a teacher's rows and the teacher lookup. */
  lemma DocenteYDatosSeCorresponden(doc: Docente, d: DatoAcademico, docentes: seq<Docente>, datos: seq<DatoAcademico>)
    requires ClavesDocenteUnicas(docentes) && doc in docentes && d in datos
    ensures d in DatosDeDocente(doc, datos) <==> ObtenerDocente(d, docentes) == Some(doc)
  {
    var r := ObtenerDocente(d, docentes);
    if DelDocente(doc, d) {
      var k :| 0 <= k < |docentes| && docentes[k] == doc;
      assert r.Some?;
      var j :| 0 <= j < |docentes| && docentes[j] == r.value;
      assert j == k;
    }
  }

  // Numbering

  /** "<prefijo>-<año>-<n>" with `n` left-padded with zeros to four digits. */
  function Secuencial(prefijo: string, anio: nat, n: nat): string {
    prefijo + "-" + MostrarNat(anio) + "-" + RellenarIzq(MostrarNat(n), 4, '0')
  }

  /** Where the sequence number starts inside a code. */
  function InicioNumero(prefijo: string, anio: nat): nat {
    |prefijo| + 1 + |MostrarNat(anio)| + 1
  }

  /** The digits after the year read back as the sequence number. */
  lemma LeerSecuencial(prefijo: string, anio: nat, n: nat)
    ensures var s := Secuencial(prefijo, anio, n);
      InicioNumero(prefijo, anio) <= |s| && SoloDigitos(s[InicioNumero(prefijo, anio)..])
      && LeerNat(s[InicioNumero(prefijo, anio)..]) == n
      && s[..InicioNumero(prefijo, anio)] == prefijo + "-" + MostrarNat(anio) + "-"
  {
    var s := Secuencial(prefijo, anio, n);
    var cabeza := prefijo + "-" + MostrarNat(anio) + "-";
    assert s == cabeza + RellenarIzq(MostrarNat(n), 4, '0');
    assert s[|cabeza|..] == RellenarIzq(MostrarNat(n), 4, '0');
    LeerRelleno(n, 4);
  }

  /** One prefix and one year never give two numbers the same code. */
  lemma SecuencialInyectivo(prefijo: string, anio: nat, n: nat, m: nat)
    requires Secuencial(prefijo, anio, n) == Secuencial(prefijo, anio, m)
    ensures n == m
  {
    LeerSecuencial(prefijo, anio, n);
    LeerSecuencial(prefijo, anio, m);
  }

  /** The number the next certificate of year `anio` gets: one more than those created that year. */
  function NumeroCertificacion(certs: seq<Certificacion>, anio: nat): string {
    Secuencial("CERT", anio, Contar(certs, (c: Certificacion) => c.anio == anio) + 1)
  }

  /** The code the next thesis of year `anio` gets. */
  function CodigoTesis(tesis: seq<Tesis>, anio: nat): string {
    Secuencial("TESIS", anio, Contar(tesis, (t: Tesis) => t.anio == anio) + 1)
  }

  /** Every certificate got its number when appended, from the rows before it. */
  ghost predicate NumeradasEnOrden(certs: seq<Certificacion>) {
    forall i :: 0 <= i < |certs| ==> certs[i].numero == NumeroCertificacion(certs[..i], certs[i].anio)
  }

  /** A certificate numbered on append keeps the table numbered in order. */
  lemma AgregarNumerada(certs: seq<Certificacion>, c: Certificacion)
    requires NumeradasEnOrden(certs) && c.numero == NumeroCertificacion(certs, c.anio)
    ensures NumeradasEnOrden(certs + [c])
  {
    var t := certs + [c];
    forall i | 0 <= i < |t|
      ensures t[i].numero == NumeroCertificacion(t[..i], t[i].anio)
    {
      if i < |certs| {
        assert t[..i] == certs[..i];
      } else {
        assert t[..i] == certs;
      }
    }
  }

  /** A later row of the year is counted past every earlier one. */
  lemma {:induction false} ContarCrece(certs: seq<Certificacion>, i: nat, j: nat, anio: nat)
    requires i < j <= |certs| && certs[i].anio == anio
    ensures Contar(certs[..j], (c: Certificacion) => c.anio == anio)
         >= Contar(certs[..i], (c: Certificacion) => c.anio == anio) + 1
  {
    var p := (c: Certificacion) => c.anio == anio;
    assert certs[..j] == certs[..j - 1] + [certs[j - 1]];
    ContarAgregar(certs[..j - 1], certs[j - 1], p);
    if j - 1 > i {
      ContarCrece(certs, i, j - 1, anio);
    } else {
      assert certs[..j - 1] == certs[..i];
    }
  }

  /** While nothing is deleted, certificates of one year never share a number. */
  lemma NumerosDistintos(certs: seq<Certificacion>, i: nat, j: nat)
    requires NumeradasEnOrden(certs) && i < j < |certs| && certs[i].anio == certs[j].anio
    ensures certs[i].numero != certs[j].numero
  {
    var anio := certs[i].anio;
    var p := (c: Certificacion) => c.anio == anio;
    ContarCrece(certs, i, j, anio);
    if certs[i].numero == certs[j].numero {
      SecuencialInyectivo("CERT", anio, Contar(certs[..i], p) + 1, Contar(certs[..j], p) + 1);
    }
  }

  /**
   * Counting is not numbering: once an earlier certificate of the year is
   * deleted, the next number is one the table already holds.
   */
  lemma ColisionTrasBorrar(c1: Certificacion, c2: Certificacion, anio: nat)
    requires c1.anio == anio && c2.anio == anio
    requires c1.numero == NumeroCertificacion([], anio) && c2.numero == NumeroCertificacion([c1], anio)
    ensures NumeradasEnOrden([c1, c2])
    ensures NumeroCertificacion([c2], anio) == c2.numero
  {
    var p := (c: Certificacion) => c.anio == anio;
    assert [c1, c2][..0] == [] && [c1, c2][..1] == [c1];
    assert Contar([c1], p) == Contar([c2], p) by {
      ContarAgregar([], c1, p);
      ContarAgregar([], c2, p);
      assert [] + [c1] == [c1] && [] + [c2] == [c2];
    }
  }

  /** The title of a thesis created from a spreadsheet row; a missing name interpolates as "". */
  function Titulo(nombreEst: Option<string>): (r: string)
    ensures EmpiezaCon(r, "Trabajo Final de Grado - ")
    ensures r[|"Trabajo Final de Grado - "|..] == nombreEst.GetOr("")
  {
    "Trabajo Final de Grado - " + nombreEst.GetOr("")
  }

  /**
   * The mean of two grades in hundredths, rounded half away from zero to a
   * hundredth as the DECIMAL(5,2) column stores it.
   */
  function Promedio(a: int, b: int): (p: int)
    ensures a <= b ==> a <= p <= b
    ensures b <= a ==> b <= p <= a
    ensures a + b - 1 <= 2 * p <= a + b + 1
    ensures (a + b) % 2 == 0 ==> 2 * p == a + b
    ensures a + b >= 0 && (a + b) % 2 == 1 ==> 2 * p == a + b + 1
    ensures a + b < 0 && (a + b) % 2 == 1 ==> 2 * p == a + b - 1
  {
    var s := a + b;
    if s >= 0 then (s + 1) / 2 else -((-s + 1) / 2)
  }

  /**
   * calcularPromedio: the average is set when both grades are present. A
   * stored grade, 0.00 included, casts to a non-empty text such as "0.00",
   * which PHP takes as true, so only a missing grade leaves the average as
   * it was.
   */
  function ConPromedio(c: Certificacion): (r: Certificacion)
    ensures c.nota.Some? && c.notaDefensa.Some? ==>
      r == c.(promedio := Some(Promedio(c.nota.value, c.notaDefensa.value)))
    ensures c.nota.None? || c.notaDefensa.None? ==> r == c
  {
    if c.nota.Some? && c.notaDefensa.Some? then
      c.(promedio := Some(Promedio(c.nota.value, c.notaDefensa.value)))
    else c
  }
}
