/**
 * The tables the spreadsheet import writes, each an object holding its rows
 * in insertion order and the next id to hand out, with the model-level
 * writes the source performs on them: Programa::firstOrCreate and
 * Programa::crearDesdeExcel, Docente::crearDesdeExcel, DatoAcademico::create,
 * Certificacion::crearDesdeExcel with calcularPromedio, Tesis::crearDesdeExcel.
 */
module Tablas {
  import opened Wrappers
  import opened Fechas
  import opened Consultas
  import opened Registros

  // Programs

  /** The program fields a spreadsheet row supplies. */
  datatype DatosPrograma = DatosPrograma(
    codFacultad: Option<string>,
    nombreFacultad: Option<string>,
    nombreCarrera: Option<string>,
    codPlan: Option<string>)

  predicate ClavePrograma(p: Programa, cod: string, gestionId: nat) {
    p.codCarrera == cod && p.gestionId == gestionId
  }

  /** Where the program with key (cod_carrera, gestion_id) is, if anywhere. */
  function BuscarPrograma(s: seq<Programa>, cod: string, gestionId: nat): (r: Option<nat>)
    ensures r.None? <==> forall i :: 0 <= i < |s| ==> !ClavePrograma(s[i], cod, gestionId)
    ensures r.Some? ==> r.value < |s| && ClavePrograma(s[r.value], cod, gestionId)
  {
    PrimerIndice(s, (p: Programa) => ClavePrograma(p, cod, gestionId))
  }

  /** The first position holding the key is the one found. */
  lemma BuscarProgramaEn(s: seq<Programa>, cod: string, gestionId: nat, k: nat)
    requires k < |s| && ClavePrograma(s[k], cod, gestionId)
    requires forall j :: 0 <= j < k ==> !ClavePrograma(s[j], cod, gestionId)
    ensures BuscarPrograma(s, cod, gestionId) == Some(k)
  {
    var r := BuscarPrograma(s, cod, gestionId);
    assert r.Some?;
  }

  /** The values Programa::crearDesdeExcel writes over a program. */
  function ConDatosExcel(p: Programa, d: DatosPrograma): Programa {
    p.(codFacultad := d.codFacultad, nombreFacultad := d.nombreFacultad, nombreCarrera := d.nombreCarrera,
       codPlan := d.codPlan, tipo := "maestria", modalidad := "presencial", estado := "activo")
  }

  ghost predicate IdsProgramas(s: seq<Programa>, proximo: nat) {
    (forall i :: 0 <= i < |s| ==> s[i].id < proximo)
    && forall i, j :: 0 <= i < j < |s| ==> s[i].id != s[j].id
  }

  class TablaProgramas {
    var filas: seq<Programa>
    var proximoId: nat

    /** One program per (cod_carrera, gestion_id), distinct ids below the next one. */
    ghost predicate Valid()
      reads this
    {
      ClavesProgramaUnicas(filas) && IdsProgramas(filas, proximoId)
    }

    constructor()
      ensures Valid() && filas == []
    {
      filas := [];
      proximoId := 1;
    }

    /**
     * Programa::firstOrCreate as the import calls it: the program with the
     * key is returned untouched when there is one (first wins); otherwise a
     * new one is inserted with the row's values and the column defaults
     * 'maestria' and 'activo'.
     */
    method PrimeroOCrear(cod: string, gestionId: nat, d: DatosPrograma, modalidad: string) returns (p: Programa)
      requires Valid()
      modifies this
      ensures Valid()
      ensures BuscarPrograma(filas, cod, gestionId).Some? && filas[BuscarPrograma(filas, cod, gestionId).value] == p
      ensures BuscarPrograma(old(filas), cod, gestionId).Some? ==> filas == old(filas) && proximoId == old(proximoId)
      ensures BuscarPrograma(old(filas), cod, gestionId).None? ==>
        filas == old(filas) + [p] && proximoId == old(proximoId) + 1
        && p == Programa(old(proximoId), d.codFacultad, d.nombreFacultad, cod, d.nombreCarrera, d.codPlan,
                         "maestria", modalidad, "activo", None, gestionId)
    {
      var k := BuscarPrograma(filas, cod, gestionId);
      if k.Some? {
        p := filas[k.value];
      } else {
        p := Programa(proximoId, d.codFacultad, d.nombreFacultad, cod, d.nombreCarrera, d.codPlan,
                      "maestria", modalidad, "activo", None, gestionId);
        filas := filas + [p];
        proximoId := proximoId + 1;
        BuscarProgramaEn(filas, cod, gestionId, |filas| - 1);
      }
    }

    /**
     * Programa::crearDesdeExcel, an updateOrCreate on the same key: the
     * program with the key is overwritten with the row's values (last
     * wins), or a new one is inserted; either way it ends up 'maestria',
     * 'presencial' and 'activo'.
     */
    method CrearDesdeExcel(cod: string, gestionId: nat, d: DatosPrograma) returns (p: Programa)
      requires Valid()
      modifies this
      ensures Valid()
      ensures BuscarPrograma(filas, cod, gestionId).Some? && filas[BuscarPrograma(filas, cod, gestionId).value] == p
      ensures p.tipo == "maestria" && p.modalidad == "presencial" && p.estado == "activo"
      ensures p.codFacultad == d.codFacultad && p.nombreFacultad == d.nombreFacultad
        && p.nombreCarrera == d.nombreCarrera && p.codPlan == d.codPlan
      ensures BuscarPrograma(old(filas), cod, gestionId).Some? ==>
        var k := BuscarPrograma(old(filas), cod, gestionId).value;
        filas == old(filas)[k := ConDatosExcel(old(filas)[k], d)] && proximoId == old(proximoId)
      ensures BuscarPrograma(old(filas), cod, gestionId).None? ==>
        filas == old(filas) + [p] && proximoId == old(proximoId) + 1
        && p == ConDatosExcel(Programa(old(proximoId), None, None, cod, None, None, "maestria", "presencial", "activo", None, gestionId), d)
    {
      var k := BuscarPrograma(filas, cod, gestionId);
      if k.Some? {
        p := ConDatosExcel(filas[k.value], d);
        filas := filas[k.value := p];
        assert forall i :: 0 <= i < |filas| && i != k.value ==> filas[i] == old(filas)[i];
        BuscarProgramaEn(filas, cod, gestionId, k.value);
      } else {
        p := ConDatosExcel(Programa(proximoId, None, None, cod, None, None, "maestria", "presencial", "activo", None, gestionId), d);
        filas := filas + [p];
        proximoId := proximoId + 1;
        BuscarProgramaEn(filas, cod, gestionId, |filas| - 1);
      }
    }
  }

  // Teachers

  predicate ClaveDocente(doc: Docente, cod: string, gestionId: nat) {
    doc.codDoc == cod && doc.gestionId == gestionId
  }

  /** Where the teacher with key (cod_doc, gestion_id) is, if anywhere. */
  function BuscarDocente(s: seq<Docente>, cod: string, gestionId: nat): (r: Option<nat>)
    ensures r.None? <==> forall i :: 0 <= i < |s| ==> !ClaveDocente(s[i], cod, gestionId)
    ensures r.Some? ==> r.value < |s| && ClaveDocente(s[r.value], cod, gestionId)
  {
    PrimerIndice(s, (doc: Docente) => ClaveDocente(doc, cod, gestionId))
  }

  /** The first position holding the key is the one found. */
  lemma BuscarDocenteEn(s: seq<Docente>, cod: string, gestionId: nat, k: nat)
    requires k < |s| && ClaveDocente(s[k], cod, gestionId)
    requires forall j :: 0 <= j < k ==> !ClaveDocente(s[j], cod, gestionId)
    ensures BuscarDocente(s, cod, gestionId) == Some(k)
  {
    var r := BuscarDocente(s, cod, gestionId);
    assert r.Some?;
  }

  ghost predicate IdsDocentes(s: seq<Docente>, proximo: nat) {
    (forall i :: 0 <= i < |s| ==> s[i].id < proximo)
    && forall i, j :: 0 <= i < j < |s| ==> s[i].id != s[j].id
  }

  class TablaDocentes {
    var filas: seq<Docente>
    var proximoId: nat

    /** One teacher per (cod_doc, gestion_id), distinct ids below the next one. */
    ghost predicate Valid()
      reads this
    {
      ClavesDocenteUnicas(filas) && IdsDocentes(filas, proximoId)
    }

    constructor()
      ensures Valid() && filas == []
    {
      filas := [];
      proximoId := 1;
    }

    /**
     * Docente::crearDesdeExcel, an updateOrCreate keyed by (cod_doc,
     * gestion_id); the import performs the same upsert inline. The teacher
     * with the key gets the new name and gender and 'activo' (last wins),
     * keeping its id, email and phone; otherwise a new one is inserted.
     */
    method CrearDesdeExcel(cod: string, gestionId: nat, nombre: Option<string>, genero: Option<string>) returns (doc: Docente)
      requires Valid()
      modifies this
      ensures Valid()
      ensures BuscarDocente(filas, cod, gestionId).Some? && filas[BuscarDocente(filas, cod, gestionId).value] == doc
      ensures doc.nombreDoc == nombre && doc.generoDoc == genero && doc.estado == "activo"
      ensures BuscarDocente(old(filas), cod, gestionId).Some? ==>
        var k := BuscarDocente(old(filas), cod, gestionId).value;
        filas == old(filas)[k := old(filas)[k].(nombreDoc := nombre, generoDoc := genero, estado := "activo")]
        && proximoId == old(proximoId)
      ensures BuscarDocente(old(filas), cod, gestionId).None? ==>
        filas == old(filas) + [doc] && proximoId == old(proximoId) + 1
        && doc == Docente(old(proximoId), cod, nombre, genero, None, None, "activo", gestionId)
    {
      var k := BuscarDocente(filas, cod, gestionId);
      if k.Some? {
        doc := filas[k.value].(nombreDoc := nombre, generoDoc := genero, estado := "activo");
        filas := filas[k.value := doc];
        assert forall i :: 0 <= i < |filas| && i != k.value ==> filas[i] == old(filas)[i];
        BuscarDocenteEn(filas, cod, gestionId, k.value);
      } else {
        doc := Docente(proximoId, cod, nombre, genero, None, None, "activo", gestionId);
        filas := filas + [doc];
        proximoId := proximoId + 1;
        BuscarDocenteEn(filas, cod, gestionId, |filas| - 1);
      }
    }
  }

  // Academic rows

  ghost predicate IdsDatos(s: seq<DatoAcademico>, proximo: nat) {
    (forall i :: 0 <= i < |s| ==> s[i].id < proximo)
    && forall i, j :: 0 <= i < j < |s| ==> s[i].id != s[j].id
  }

  class TablaDatos {
    var filas: seq<DatoAcademico>
    var proximoId: nat

    ghost predicate Valid()
      reads this
    {
      IdsDatos(filas, proximoId)
    }

    constructor()
      ensures Valid() && filas == []
    {
      filas := [];
      proximoId := 1;
    }

    /** DatoAcademico::create: the row is appended under a fresh id. */
    method Crear(d: DatoAcademico) returns (r: DatoAcademico)
      requires Valid()
      modifies this
      ensures Valid()
      ensures r == d.(id := old(proximoId)) && filas == old(filas) + [r] && proximoId == old(proximoId) + 1
      ensures forall i :: 0 <= i < |old(filas)| ==> old(filas)[i].id != r.id
    {
      r := d.(id := proximoId);
      filas := filas + [r];
      proximoId := proximoId + 1;
    }

    /**
     * `DatoAcademico::where('carga_excel_id', $id)->delete()`: exactly the
     * rows of that batch go; the others stay, in order.
     */
    method EliminarDeCarga(cargaId: nat)
      requires Valid()
      modifies this
      ensures Valid()
      ensures forall d :: d in filas <==> d in old(filas) && d.cargaId != cargaId
      ensures filas == Seleccionar(old(filas), (d: DatoAcademico) => d.cargaId != cargaId)
      ensures proximoId == old(proximoId)
    {
      var antes := filas;
      filas := Seleccionar(filas, (d: DatoAcademico) => d.cargaId != cargaId);
      SeleccionarConservaIds(antes, cargaId, proximoId);
    }
  }

  /** Deleting rows keeps the ids of the rest distinct and below the next id. */
  lemma {:induction false} SeleccionarConservaIds(s: seq<DatoAcademico>, cargaId: nat, proximo: nat)
    requires IdsDatos(s, proximo)
    ensures IdsDatos(Seleccionar(s, (d: DatoAcademico) => d.cargaId != cargaId), proximo)
  {
    var p := (d: DatoAcademico) => d.cargaId != cargaId;
    if s != [] {
      SeleccionarConservaIds(s[1..], cargaId, proximo);
      var resto := Seleccionar(s[1..], p);
      if p(s[0]) {
        var r := [s[0]] + resto;
        forall i, j | 0 <= i < j < |r|
          ensures r[i].id != r[j].id
        {
          if i == 0 {
            assert r[j] in s[1..];
          }
        }
      }
    }
  }

  // Certificates

  /** The fields of a defence that Certificacion::crearDesdeExcel and Tesis::crearDesdeExcel read. */
  datatype DatosDefensa = DatosDefensa(
    nroRegistroEst: Option<string>,
    nombreEst: Option<string>,
    generoEst: Option<string>,
    nota: Option<int>,
    notaDefensa: Option<int>,
    fechaDefensa: Option<Fecha>)

  /**
   * The certificate Certificacion::crearDesdeExcel leaves in the table under
   * id `id`, after the rows `s`: numbered after this year's count, 'pendiente',
   * with its average computed.
   */
  function NuevaCertificacion(id: nat, s: seq<Certificacion>, d: DatosDefensa, programaId: nat, gestionId: nat, anio: nat)
    : Certificacion
  {
    ConPromedio(Certificacion(id, NumeroCertificacion(s, anio), d.nroRegistroEst, d.nombreEst, d.generoEst, d.nota,
                              d.notaDefensa, d.fechaDefensa, None, None, "pendiente", programaId, Some(gestionId), anio))
  }

  ghost predicate IdsCertificaciones(s: seq<Certificacion>, proximo: nat) {
    (forall i :: 0 <= i < |s| ==> s[i].id < proximo)
    && forall i, j :: 0 <= i < j < |s| ==> s[i].id != s[j].id
  }

  class TablaCertificaciones {
    var filas: seq<Certificacion>
    var proximoId: nat

    ghost predicate Valid()
      reads this
    {
      IdsCertificaciones(filas, proximoId)
    }

    constructor()
      ensures Valid() && filas == []
    {
      filas := [];
      proximoId := 1;
    }

    /** Certificacion::create: the row is appended under a fresh id. */
    method Crear(c: Certificacion) returns (r: Certificacion)
      requires Valid()
      modifies this
      ensures Valid()
      ensures r == c.(id := old(proximoId)) && filas == old(filas) + [r] && proximoId == old(proximoId) + 1
    {
      r := c.(id := proximoId);
      filas := filas + [r];
      proximoId := proximoId + 1;
    }

    /** $registro->update(...): the row at `k` is replaced, keeping its id. */
    method Reemplazar(k: nat, r: Certificacion)
      requires Valid() && k < |filas| && r.id == filas[k].id
      modifies this
      ensures Valid()
      ensures filas == old(filas)[k := r] && proximoId == old(proximoId)
    {
      filas := filas[k := r];
    }

    /** $registro->delete(): the row goes; the others stay, in order. */
    method Eliminar(k: nat)
      requires Valid() && k < |filas|
      modifies this
      ensures Valid()
      ensures filas == old(filas)[..k] + old(filas)[k + 1..] && proximoId == old(proximoId)
    {
      filas := filas[..k] + filas[k + 1..];
      assert forall i :: 0 <= i < |filas| ==> filas[i] in old(filas);
      forall i, j | 0 <= i < j < |filas|
        ensures filas[i].id != filas[j].id
      {
        var a := if i < k then i else i + 1;
        var b := if j < k then j else j + 1;
        assert filas[i] == old(filas)[a] && filas[j] == old(filas)[b];
      }
    }

    /** calcularPromedio on the certificate at position `k`, saved in place. */
    method CalcularPromedio(k: nat)
      requires Valid() && k < |filas|
      modifies this
      ensures Valid()
      ensures filas == old(filas)[k := ConPromedio(old(filas)[k])] && proximoId == old(proximoId)
    {
      filas := filas[k := ConPromedio(filas[k])];
    }

    /**
     * Certificacion::crearDesdeExcel: without a defence date nothing is
     * created; otherwise a 'pendiente' certificate numbered CERT-<año>-NNNN
     * after this year's count is appended, then its average is computed.
     * A table numbered in order stays numbered in order.
     */
    method CrearDesdeExcel(d: DatosDefensa, programaId: nat, gestionId: nat, anio: nat) returns (r: Option<Certificacion>)
      requires Valid()
      modifies this
      ensures Valid()
      ensures d.fechaDefensa.None? ==> r.None? && filas == old(filas) && proximoId == old(proximoId)
      ensures d.fechaDefensa.Some? ==>
        r.Some? && filas == old(filas) + [r.value] && proximoId == old(proximoId) + 1
        && r.value == NuevaCertificacion(old(proximoId), old(filas), d, programaId, gestionId, anio)
      ensures NumeradasEnOrden(old(filas)) ==> NumeradasEnOrden(filas)
    {
      if d.fechaDefensa.None? {
        return None;
      }
      ghost var antes := filas;
      var numero := NumeroCertificacion(filas, anio);
      var c := Crear(Certificacion(0, numero, d.nroRegistroEst, d.nombreEst, d.generoEst, d.nota, d.notaDefensa,
                                   d.fechaDefensa, None, None, "pendiente", programaId, Some(gestionId), anio));
      CalcularPromedio(|filas| - 1);
      r := Some(ConPromedio(c));
      assert filas == antes + [r.value];
      if NumeradasEnOrden(antes) {
        AgregarNumerada(antes, r.value);
      }
    }
  }

  // Theses

  /**
   * The thesis Tesis::crearDesdeExcel inserts under id `id`, after the rows
   * `s`: coded after this year's count, titled after the student, 'defendida'.
   */
  function NuevaTesis(id: nat, s: seq<Tesis>, d: DatosDefensa, programaId: nat, gestionId: nat, tutorId: Option<nat>, anio: nat)
    : Tesis
  {
    Tesis(id, CodigoTesis(s, anio), Some(Titulo(d.nombreEst)), d.nroRegistroEst, d.nombreEst, d.fechaDefensa,
          d.notaDefensa, "defendida", tutorId, programaId, Some(gestionId), anio)
  }

  ghost predicate IdsTesis(s: seq<Tesis>, proximo: nat) {
    (forall i :: 0 <= i < |s| ==> s[i].id < proximo)
    && forall i, j :: 0 <= i < j < |s| ==> s[i].id != s[j].id
  }

  class TablaTesis {
    var filas: seq<Tesis>
    var proximoId: nat

    ghost predicate Valid()
      reads this
    {
      IdsTesis(filas, proximoId)
    }

    constructor()
      ensures Valid() && filas == []
    {
      filas := [];
      proximoId := 1;
    }

    /** Tesis::create: the row is appended under a fresh id. */
    method Crear(t: Tesis) returns (r: Tesis)
      requires Valid()
      modifies this
      ensures Valid()
      ensures r == t.(id := old(proximoId)) && filas == old(filas) + [r] && proximoId == old(proximoId) + 1
    {
      r := t.(id := proximoId);
      filas := filas + [r];
      proximoId := proximoId + 1;
    }

    /** $registro->update(...): the row at `k` is replaced, keeping its id. */
    method Reemplazar(k: nat, r: Tesis)
      requires Valid() && k < |filas| && r.id == filas[k].id
      modifies this
      ensures Valid()
      ensures filas == old(filas)[k := r] && proximoId == old(proximoId)
    {
      filas := filas[k := r];
    }

    /** $registro->delete(): the row goes; the others stay, in order. */
    method Eliminar(k: nat)
      requires Valid() && k < |filas|
      modifies this
      ensures Valid()
      ensures filas == old(filas)[..k] + old(filas)[k + 1..] && proximoId == old(proximoId)
    {
      filas := filas[..k] + filas[k + 1..];
      assert forall i :: 0 <= i < |filas| ==> filas[i] in old(filas);
      forall i, j | 0 <= i < j < |filas|
        ensures filas[i].id != filas[j].id
      {
        var a := if i < k then i else i + 1;
        var b := if j < k then j else j + 1;
        assert filas[i] == old(filas)[a] && filas[j] == old(filas)[b];
      }
    }

    /**
     * Tesis::crearDesdeExcel: without a defence date nothing is created;
     * otherwise a 'defendida' thesis coded TESIS-<año>-NNNN, titled after
     * the student and tutored by `tutorId` (possibly none) is appended.
     */
    method CrearDesdeExcel(d: DatosDefensa, programaId: nat, gestionId: nat, tutorId: Option<nat>, anio: nat)
      returns (r: Option<Tesis>)
      requires Valid()
      modifies this
      ensures Valid()
      ensures d.fechaDefensa.None? ==> r.None? && filas == old(filas) && proximoId == old(proximoId)
      ensures d.fechaDefensa.Some? ==>
        r.Some? && filas == old(filas) + [r.value] && proximoId == old(proximoId) + 1
        && r.value == NuevaTesis(old(proximoId), old(filas), d, programaId, gestionId, tutorId, anio)
    {
      if d.fechaDefensa.None? {
        return None;
      }
      var codigo := CodigoTesis(filas, anio);
      var t := Crear(Tesis(0, codigo, Some(Titulo(d.nombreEst)), d.nroRegistroEst, d.nombreEst, d.fechaDefensa,
                           d.notaDefensa, "defendida", tutorId, programaId, Some(gestionId), anio));
      r := Some(t);
    }
  }

  /** The five tables together. */
  class BaseDatos {
    const programas: TablaProgramas
    const docentes: TablaDocentes
    const datos: TablaDatos
    const certificaciones: TablaCertificaciones
    const tesis: TablaTesis

    ghost predicate Valid()
      reads this, programas, docentes, datos, certificaciones, tesis
    {
      programas.Valid() && docentes.Valid() && datos.Valid() && certificaciones.Valid() && tesis.Valid()
    }

    constructor()
      ensures Valid()
      ensures programas.filas == [] && docentes.filas == [] && datos.filas == []
      ensures certificaciones.filas == [] && tesis.filas == []
      ensures fresh(programas) && fresh(docentes) && fresh(datos) && fresh(certificaciones) && fresh(tesis)
    {
      programas := new TablaProgramas();
      docentes := new TablaDocentes();
      datos := new TablaDatos();
      certificaciones := new TablaCertificaciones();
      tesis := new TablaTesis();
    }
  }
}
