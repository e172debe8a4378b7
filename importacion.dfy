/**
 * DatosAcademicosImport, the spreadsheet import: rows keyed by their heading
 * row, empty rows skipped, rows failing the import's rules skipped and
 * recorded, and every other row sent through `model()`, which upserts the
 * program and the teacher, stores the academic row, and creates a
 * certificate and a thesis for a defended final project. Each row counts as
 * processed, then as a success or as an error.
 *
 * The spreadsheet library is a sequence of rows; an exception thrown while a
 * row is stored is an input of the model (`Falla`), naming the step that
 * throws and its message.
 */
module Importacion {
  import opened Wrappers
  import opened Texto
  import opened Fechas
  import opened LecturaFechas
  import opened Reglas
  import opened Registros
  import opened Tablas
  import opened Consultas

  // Rows

  /**
   * One data row, keyed by the heading row: one cell per column the import
   * reads, `None` for a missing or null cell.
   */
  datatype Fila = Fila(
    codFacultad: Option<string>,
    nombreFacultad: Option<string>,
    codCarrera: Option<string>,
    codPlan: Option<string>,
    nombreCarrera: Option<string>,
    codMateriaPlan: Option<string>,
    codGrupo: Option<string>,
    codEdicion: Option<string>,
    codModalidad: Option<string>,
    siglaMateria: Option<string>,
    nombreMateria: Option<string>,
    fechaIni: Option<string>,
    fechaFin: Option<string>,
    codDoc: Option<string>,
    nombreDoc: Option<string>,
    generoDoc: Option<string>,
    nroRegistroEst: Option<string>,
    nombreEst: Option<string>,
    generoEst: Option<string>,
    nota: Option<string>,
    actaCerrada: Option<string>,
    matriculado: Option<string>,
    notaDefensa: Option<string>,
    fechaDefensa: Option<string>)

  function Celdas(f: Fila): seq<Option<string>> {
    [f.codFacultad, f.nombreFacultad, f.codCarrera, f.codPlan, f.nombreCarrera, f.codMateriaPlan, f.codGrupo,
     f.codEdicion, f.codModalidad, f.siglaMateria, f.nombreMateria, f.fechaIni, f.fechaFin, f.codDoc, f.nombreDoc,
     f.generoDoc, f.nroRegistroEst, f.nombreEst, f.generoEst, f.nota, f.actaCerrada, f.matriculado, f.notaDefensa,
     f.fechaDefensa]
  }

  /** A cell PHP reads as false: null, "" or "0". */
  predicate CeldaFalsa(o: Option<string>) {
    o.None? || VacioPhp(o.value)
  }

  /** SkipsEmptyRows: a row is empty when no cell holds a truthy value. */
  predicate FilaVacia(f: Fila) {
    forall i :: 0 <= i < |Celdas(f)| ==> CeldaFalsa(Celdas(f)[i])
  }

  /** rules(): the import's validation of one row. */
  predicate CumpleReglas(f: Fila) {
    Requerido(f.nroRegistroEst) && MaxLargo(f.nroRegistroEst, 20)
    && Requerido(f.nombreEst) && MaxLargo(f.nombreEst, 255)
    && EnLista(f.generoEst, ["M", "F"])
    && Requerido(f.codCarrera) && MaxLargo(f.codCarrera, 20)
    && MaxLargo(f.nombreCarrera, 255)
    && MaxLargo(f.codDoc, 20)
    && MaxLargo(f.nombreDoc, 255)
    && EsNota(f.nota)
    && EsNota(f.notaDefensa)
    && EsFecha(f.fechaDefensa)
  }

  /** The rows `model()` receives: not empty and valid. */
  predicate Procesable(f: Fila) {
    !FilaVacia(f) && CumpleReglas(f)
  }

  // Normalisation

  /** The modalities of the programs table. */
  const ModalidadesPrograma: seq<string> := ["presencial", "virtual", "semipresencial"]

  /**
   * The program modality a row's `cod_modalidad` stands for, compared in
   * lower case: 'virtual' or 'virt', 'semipresencial', 'sem' or 'semi', and
   * 'presencial' for anything else, an empty or missing cell included.
   */
  function NormalizarModalidad(o: Option<string>): (r: string)
    ensures r in ModalidadesPrograma
    ensures r == "virtual" <==> Minusculas(o.GetOr("")) in ["virtual", "virt"]
    ensures r == "semipresencial" <==> Minusculas(o.GetOr("")) in ["semipresencial", "sem", "semi"]
  {
    var m := Minusculas(o.GetOr(""));
    if m in ["virtual", "virt"] then "virtual"
    else if m in ["semipresencial", "sem", "semi"] then "semipresencial"
    else "presencial"
  }

  /** Text without capitals is its own lower case. */
  lemma MinusculasSinMayusculas(s: string)
    requires forall i :: 0 <= i < |s| ==> !('A' <= s[i] <= 'Z')
    ensures Minusculas(s) == s
  {
    assert forall i :: 0 <= i < |s| ==> Minusculas(s)[i] == s[i];
  }

  /** strtolower is idempotent. */
  lemma MinusculasIdempotente(s: string)
    ensures Minusculas(Minusculas(s)) == Minusculas(s)
  {
    MinusculasSinMayusculas(Minusculas(s));
  }

  /** The modality ignores case: a cell and its lower case normalise alike. */
  lemma ModalidadSinMayusculas(s: string)
    ensures NormalizarModalidad(Some(s)) == NormalizarModalidad(Some(Minusculas(s)))
  {
    MinusculasIdempotente(s);
  }

  /** A modality of the table normalises to itself, so normalising twice changes nothing. */
  lemma ModalidadIdempotente(o: Option<string>)
    ensures NormalizarModalidad(Some(NormalizarModalidad(o))) == NormalizarModalidad(o)
  {
    var r := NormalizarModalidad(o);
    MinusculasSinMayusculas(r);
  }

  /**
   * The teacher's gender a row's `genero_doc` stands for: 'F' when its first
   * character is 'f' or 'F', 'M' otherwise, and 'M' for a missing cell.
   */
  function NormalizarGenero(o: Option<string>): (r: string)
    ensures r == "M" || r == "F"
    ensures r == "F" <==> o.Some? && o.value != [] && (o.value[0] == 'f' || o.value[0] == 'F')
  {
    var s := o.GetOr("M");
    if s != [] && Mayuscula(s[0]) == 'F' then "F" else "M"
  }

  // Dates

  /** The formats parseDate tries, in order. */
  const FormatosFecha: seq<seq<Pieza>> := [Ymd, Dmy, DmyGuion, YmdBarra]

  /** The date read by the first of `formatos` that accepts `s`. */
  function PrimerFormato(formatos: seq<seq<Pieza>>, s: string): (r: Option<Fecha>)
    ensures r.None? <==> forall i :: 0 <= i < |formatos| ==> DesdeFormato(formatos[i], s).None?
    ensures r.Some? ==> Valida(r.value)
  {
    if formatos == [] then None
    else
      match DesdeFormato(formatos[0], s)
      case Some(f) => Some(f)
      case None =>
        var r := PrimerFormato(formatos[1..], s);
        assert forall j :: 1 <= j < |formatos| ==> formatos[j] == formatos[1..][j - 1];
        r
  }

  /** The first format that reads the text wins: every format before it fails. */
  lemma {:induction false} PrimerFormatoGana(formatos: seq<seq<Pieza>>, s: string)
    requires PrimerFormato(formatos, s).Some?
    ensures exists i :: 0 <= i < |formatos| && DesdeFormato(formatos[i], s) == PrimerFormato(formatos, s)
                        && forall j :: 0 <= j < i ==> DesdeFormato(formatos[j], s).None?
  {
    if DesdeFormato(formatos[0], s).None? {
      var resto := formatos[1..];
      PrimerFormatoGana(resto, s);
      var i :| 0 <= i < |resto| && DesdeFormato(resto[i], s) == PrimerFormato(resto, s)
               && forall j :: 0 <= j < i ==> DesdeFormato(resto[j], s).None?;
      assert formatos[i + 1] == resto[i];
      assert forall j :: 1 <= j < i + 1 ==> formatos[j] == resto[j - 1];
    } else {
      assert DesdeFormato(formatos[0], s) == PrimerFormato(formatos, s);
    }
  }

  /** is_numeric on plain decimal text. */
  predicate EsNumerico(s: string) {
    LeerDecimal(s).Some?
  }

  /**
   * parseDate: nothing for an empty cell; otherwise the first format that
   * reads it; otherwise, for a number, the date of that spreadsheet serial
   * (`serial` stands for that conversion); otherwise nothing.
   */
  function FechaImportada(o: Option<string>, serial: string -> Fecha): (r: Option<Fecha>)
    ensures o.None? || VacioPhp(o.value) ==> r.None?
    ensures o.Some? && !VacioPhp(o.value) && PrimerFormato(FormatosFecha, o.value).Some? ==>
              r == PrimerFormato(FormatosFecha, o.value)
    ensures o.Some? && !VacioPhp(o.value) && PrimerFormato(FormatosFecha, o.value).None? ==>
              r == if EsNumerico(o.value) then Some(serial(o.value)) else None
  {
    if o.None? || VacioPhp(o.value) then None
    else
      match PrimerFormato(FormatosFecha, o.value)
      case Some(f) => Some(f)
      case None => if EsNumerico(o.value) then Some(serial(o.value)) else None
  }

  /** parseDate as written: the formats tried one by one, returning at the first that reads the text. */
  method ParseDate(o: Option<string>, serial: string -> Fecha) returns (r: Option<Fecha>)
    ensures r == FechaImportada(o, serial)
  {
    if o.None? || VacioPhp(o.value) {
      return None;
    }
    var s := o.value;
    var i := 0;
    while i < |FormatosFecha|
      invariant 0 <= i <= |FormatosFecha|
      invariant PrimerFormato(FormatosFecha, s) == PrimerFormato(FormatosFecha[i..], s)
    {
      var f := DesdeFormato(FormatosFecha[i], s);
      if f.Some? {
        return f;
      }
      assert FormatosFecha[i..][1..] == FormatosFecha[i + 1..];
      i := i + 1;
    }
    if EsNumerico(s) {
      return Some(serial(s));
    }
    return None;
  }

  /** A date the application prints as Y-m-d is read back as that date. */
  lemma ImportaYmd(f: Fecha, serial: string -> Fecha)
    requires Valida(f) && 0 <= f.anio < 10000
    ensures FechaImportada(Some(FormatoYmd(f)), serial) == Some(f)
  {
    LeerYmd(f);
    assert DesdeFormato(Ymd, FormatoYmd(f)) == Some(f);
  }

  /** A date written d/m/Y is read by the second format, not misread by the first. */
  lemma ImportaDmy(f: Fecha, serial: string -> Fecha)
    requires Valida(f) && 0 <= f.anio < 10000
    ensures FechaImportada(Some(FormatoDmy(f)), serial) == Some(f)
  {
    var t := FormatoDmy(f);
    assert t == DosDigitos(f.dia) + (['/'] + (DosDigitos(f.mes) + (['/'] + CuatroDigitos(f.anio))));
    assert |t| >= 6;
    LeerDmy(f);
    var resto := FormatosFecha[1..];
    assert resto[0] == Dmy;
    assert PrimerFormato(resto, t) == Some(f);
    assert PrimerFormato(FormatosFecha, t) == PrimerFormato(resto, t);
  }

  /** The formats in turn: the first that reads the text gives the date. */
  lemma CuatroFormatos(s: string)
    ensures PrimerFormato(FormatosFecha, s) ==
      if DesdeFormato(Ymd, s).Some? then DesdeFormato(Ymd, s)
      else if DesdeFormato(Dmy, s).Some? then DesdeFormato(Dmy, s)
      else if DesdeFormato(DmyGuion, s).Some? then DesdeFormato(DmyGuion, s)
      else DesdeFormato(YmdBarra, s)
  {
    var f1 := [Dmy, DmyGuion, YmdBarra];
    var f2 := [DmyGuion, YmdBarra];
    var f3 := [YmdBarra];
    assert FormatosFecha == [Ymd] + f1 && f1 == [Dmy] + f2 && f2 == [DmyGuion] + f3 && f3 == [YmdBarra] + [];
    PrimerFormatoPaso(Ymd, f1, s);
    PrimerFormatoPaso(Dmy, f2, s);
    PrimerFormatoPaso(DmyGuion, f3, s);
    PrimerFormatoPaso(YmdBarra, [], s);
  }

  /** The first format is tried before the others. */
  lemma PrimerFormatoPaso(formato: seq<Pieza>, otros: seq<seq<Pieza>>, s: string)
    ensures PrimerFormato([formato] + otros, s) ==
      if DesdeFormato(formato, s).Some? then DesdeFormato(formato, s) else PrimerFormato(otros, s)
  {
    assert ([formato] + otros)[0] == formato && ([formato] + otros)[1..] == otros;
  }

  /** A text of three runs of digits joined by non-digits is neither empty, nor "0", nor a number. */
  lemma TrozosNoNumericos(t: Trozos)
    requires BienFormados(t)
    ensures !VacioPhp(Unir(t)) && !EsNumerico(Unir(t))
  {
    var s := Unir(t);
    var b := t.t2 + ([t.y] + t.t3);
    assert |s| >= 5;
    if t.x == '.' {
      assert s == t.t1 + "." + b;
      assert b[|t.t2|] == t.y;
      NoNumericoTrasPunto(t.t1, b);
    } else {
      assert s[..|t.t1|] == t.t1 && s[|t.t1|] == t.x;
      NoNumericoTrasDigitos(s, |t.t1|);
    }
  }

  /**
   * What parseDate stores for a defence date the `date` rule accepts: the
   * same date for a year-first text and for day-month-year with dashes; for
   * an American month/day/year text, the date with day and month swapped
   * (read as 'd/m/Y', carried into the next year when the day exceeds 12);
   * and NULL for day.month.year with a dot or a tab.
   */
  lemma FechaValidadaAlImportar(t: Trozos, serial: string -> Fecha)
    requires BienFormados(t) && LeerFecha(Unir(t)).Some?
    ensures OrdenDe(t).Some?
    ensures var f := LeerFecha(Unir(t)).value;
      var importada := FechaImportada(Some(Unir(t)), serial);
      && (OrdenDe(t) == Some(AnioMesDia) ==> importada == Some(f))
      && (OrdenDe(t) == Some(DiaMesAnio) && t.x == '-' && t.y == '-' ==> importada == Some(f))
      && (OrdenDe(t) == Some(MesDiaAnio) ==> importada == Some(Normalizar(f.anio, f.dia, f.mes)))
      && (OrdenDe(t) == Some(DiaMesAnio) && !(t.x == '-' && t.y == '-') ==> importada.None?)
  {
    var s := Unir(t);
    TrocearUnir(t);
    TrozosNoNumericos(t);
    CuatroFormatos(s);
    var f := LeerFecha(s).value;
    match OrdenDe(t).value
    case AnioMesDia =>
      FormatosAnioPrimero(t);
    case MesDiaAnio =>
      FormatosMesPrimero(t);
    case DiaMesAnio =>
      FormatosDiaPrimero(t);
  }

  /**
   * A 'Y-m-d' date followed by more text, such as a time of day
   * ('2024-03-01 10:00'), is read by none of the formats and is no number:
   * parseDate stores NULL.
   */
  lemma ConRestoNoSeImporta(f: Fecha, resto: string, serial: string -> Fecha)
    requires Valida(f) && 1 <= f.anio < 10000 && resto != [] && !EsDigito(resto[0])
    ensures FechaImportada(Some(FormatoYmd(f) + resto), serial).None?
  {
    AnioCuatroDigitos(f.anio);
    var y, m, d := CuatroDigitos(f.anio), DosDigitos(f.mes), DosDigitos(f.dia);
    var s := FormatoYmd(f) + resto;
    assert s == y + (['-'] + (m + (['-'] + (d + resto))));
    FormatosConResto(y, m, d, resto);
    CuatroFormatos(s);
    assert s[..4] == y && s[4] == '-';
    NoNumericoTrasDigitos(s, 4);
  }

  /** A cell that starts with a non-digit and is no number (" 2024-03-01", say) is stored as NULL. */
  lemma SinDigitoInicialNoSeImporta(s: string, serial: string -> Fecha)
    requires s != [] && !EsDigito(s[0]) && !EsNumerico(s)
    ensures FechaImportada(Some(s), serial).None?
  {
    FormatosSinDigitoInicial(s);
    CuatroFormatos(s);
  }

  // One row

  /** The program fields `model()` passes to firstOrCreate. */
  function DatosProgramaDe(f: Fila): DatosPrograma {
    DatosPrograma(f.codFacultad, f.nombreFacultad, Some(f.nombreCarrera.GetOr("Programa sin nombre")), f.codPlan)
  }

  /** The academic row `model()` creates from the row (its id is set on insert). */
  function DatoDeFila(f: Fila, cargaId: nat, gestionId: nat, serial: string -> Fecha): (d: DatoAcademico)
    ensures d.cargaId == cargaId && d.gestionId == gestionId
    ensures d.codCarrera == f.codCarrera && d.codDoc == f.codDoc && d.nroRegistroEst == f.nroRegistroEst
    ensures d.fechaDefensa == FechaImportada(f.fechaDefensa, serial)
    ensures d.nota == NotaDe(f.nota) && d.notaDefensa == NotaDe(f.notaDefensa)
  {
    DatoAcademico(0, f.codFacultad, f.nombreFacultad, f.codCarrera, f.codPlan, f.nombreCarrera, f.codMateriaPlan,
                  f.codGrupo, f.codEdicion, f.codModalidad, f.siglaMateria, f.nombreMateria,
                  FechaImportada(f.fechaIni, serial), FechaImportada(f.fechaFin, serial),
                  f.codDoc, f.nombreDoc, f.generoDoc, f.nroRegistroEst, f.nombreEst, f.generoEst, NotaDe(f.nota),
                  f.actaCerrada, f.matriculado, FechaImportada(f.fechaDefensa, serial), NotaDe(f.notaDefensa),
                  cargaId, gestionId)
  }

  /**
   * What `model()` derives from a row before it writes: the program key and
   * fields with the normalised modality, the teacher's code, name and
   * normalised gender, and the academic row.
   */
  datatype Valores = Valores(
    codCarrera: string,
    programa: DatosPrograma,
    modalidad: string,
    codDoc: string,
    nombreDoc: string,
    generoDoc: string,
    dato: DatoAcademico)

  function ValoresDe(f: Fila, cargaId: nat, gestionId: nat, serial: string -> Fecha): (v: Valores)
    ensures v.modalidad in ModalidadesPrograma && (v.generoDoc == "M" || v.generoDoc == "F")
    ensures v.codCarrera == f.codCarrera.GetOr("") && v.codDoc == f.codDoc.GetOr("")
    ensures v.programa.nombreCarrera.Some?
    ensures v.dato == DatoDeFila(f, cargaId, gestionId, serial)
  {
    Valores(f.codCarrera.GetOr(""), DatosProgramaDe(f), NormalizarModalidad(f.codModalidad), f.codDoc.GetOr(""),
            f.nombreDoc.GetOr("Docente sin nombre"), NormalizarGenero(f.generoDoc),
            DatoDeFila(f, cargaId, gestionId, serial))
  }

  /** The defence fields of a stored academic row. */
  function DefensaDe(d: DatoAcademico): DatosDefensa {
    DatosDefensa(d.nroRegistroEst, d.nombreEst, d.generoEst, d.nota, d.notaDefensa, d.fechaDefensa)
  }

  /** The steps of `model()` that write, in order. */
  datatype Etapa = EnPrograma | EnDocente | EnDato | EnCertificacion | EnTesis

  function Orden(e: Etapa): nat {
    match e
    case EnPrograma => 0
    case EnDocente => 1
    case EnDato => 2
    case EnCertificacion => 3
    case EnTesis => 4
  }

  /** An exception thrown by one step of `model()`, before that step writes. */
  datatype Falla = Falla(etapa: Etapa, mensaje: string)

  /** Which of the optional steps a row performs: the teacher's, and the defence's. */
  datatype Alcance = Alcance(conDocente: bool, conDefensa: bool)

  /** The teacher step runs for a non-empty cod_doc, the defence steps for a row with a defence date. */
  function AlcanceDe(v: Valores): Alcance {
    Alcance(!VacioPhp(v.codDoc), v.dato.fechaDefensa.Some?)
  }

  /** The same, read off the raw row. */
  function AlcanceFila(f: Fila, serial: string -> Fecha): Alcance {
    Alcance(!VacioPhp(f.codDoc.GetOr("")), FechaImportada(f.fechaDefensa, serial).Some?)
  }

  /** The values a row yields perform the steps the row calls for. */
  lemma AlcanceValores(f: Fila, cargaId: nat, gestionId: nat, serial: string -> Fecha)
    ensures AlcanceDe(ValoresDe(f, cargaId, gestionId, serial)) == AlcanceFila(f, serial)
  {
  }

  /** Whether `model()` performs step `e` at all. */
  predicate Aplica(a: Alcance, e: Etapa) {
    match e
    case EnDocente => a.conDocente
    case EnCertificacion => a.conDefensa
    case EnTesis => a.conDefensa
    case _ => true
  }

  /** The row's exception is thrown: its step is one the row performs. */
  predicate Lanza(a: Alcance, falla: Option<Falla>) {
    falla.Some? && Aplica(a, falla.value.etapa)
  }

  /** Step `e` is performed and writes: the row needs it and no exception came at or before it. */
  predicate Llega(a: Alcance, falla: Option<Falla>, e: Etapa) {
    Aplica(a, e) && !(Lanza(a, falla) && Orden(falla.value.etapa) <= Orden(e))
  }

  /** The id of the program with the key, 0 when there is none. */
  function IdPrograma(s: seq<Programa>, cod: string, gestionId: nat): nat {
    match BuscarPrograma(s, cod, gestionId)
    case Some(k) => s[k].id
    case None => 0
  }

  /** The tutor of the thesis: the row's teacher when the row names one. */
  function Tutor(s: seq<Docente>, v: Valores, gestionId: nat): Option<nat> {
    if VacioPhp(v.codDoc) then None
    else
      match BuscarDocente(s, v.codDoc, gestionId)
      case Some(k) => Some(s[k].id)
      case None => None
  }

  /** One entry of getErrores(): the processed count at the row, the message, the raw row. */
  datatype ErrorFila = ErrorFila(fila: nat, error: string, datos: Fila)

  // The whole import

  /** A spreadsheet row and the exception storing it would throw, if any. */
  datatype Renglon = Renglon(fila: Fila, falla: Option<Falla>)

  predicate EsVacio(r: Renglon) {
    FilaVacia(r.fila)
  }

  predicate EsRechazado(r: Renglon) {
    !FilaVacia(r.fila) && !CumpleReglas(r.fila)
  }

  predicate EsProcesado(r: Renglon) {
    Procesable(r.fila)
  }

  /** The row reaches `model()` and is stored without an exception. */
  predicate Exito(r: Renglon, serial: string -> Fecha) {
    Procesable(r.fila) && !Lanza(AlcanceFila(r.fila, serial), r.falla)
  }

  function Exitosos(rs: seq<Renglon>, serial: string -> Fecha): nat {
    Contar(rs, (r: Renglon) => Exito(r, serial))
  }

  lemma ExitososAgregar(rs: seq<Renglon>, r: Renglon, serial: string -> Fecha)
    ensures Exitosos(rs + [r], serial)
         == Exitosos(rs, serial) + (if Exito(r, serial) then 1 else 0)
  {
    ContarAgregar(rs, r, (r: Renglon) => Exito(r, serial));
  }

  /** The counts over the first `i + 1` rows: those over the first `i`, plus row `i`. */
  lemma Avanzar(rs: seq<Renglon>, i: nat, serial: string -> Fecha)
    requires i < |rs|
    ensures Contar(rs[..i + 1], EsProcesado) == Contar(rs[..i], EsProcesado) + (if EsProcesado(rs[i]) then 1 else 0)
    ensures Exitosos(rs[..i + 1], serial) == Exitosos(rs[..i], serial) + (if Exito(rs[i], serial) then 1 else 0)
    ensures Posiciones(rs[..i + 1], EsRechazado, 2)
         == Posiciones(rs[..i], EsRechazado, 2) + (if EsRechazado(rs[i]) then [i + 2] else [])
  {
    assert rs[..i + 1] == rs[..i] + [rs[i]];
    ContarAgregar(rs[..i], rs[i], EsProcesado);
    ExitososAgregar(rs[..i], rs[i], serial);
    PosicionesAgregar(rs[..i], rs[i], EsRechazado, 2);
  }

  /** Every row is skipped as empty, rejected by the rules, or processed: exactly one of the three. */
  lemma FilasRepartidas(rs: seq<Renglon>)
    ensures Contar(rs, EsVacio) + Contar(rs, EsRechazado) + Contar(rs, EsProcesado) == |rs|
  {
    ContarTres(rs, EsVacio, EsRechazado, EsProcesado);
  }

  /** Successes are among the processed rows. */
  lemma ExitososProcesados(rs: seq<Renglon>, serial: string -> Fecha)
    ensures Exitosos(rs, serial) <= Contar(rs, EsProcesado)
  {
    ContarImplica(rs, (r: Renglon) => Exito(r, serial), EsProcesado);
  }

  /**
   * The program step of model(): Programa::firstOrCreate on (cod_carrera,
   * gestion_id), unless the exception strikes at this step. Returns the
   * program's id.
   */
  method RegistrarPrograma(tabla: TablaProgramas, v: Valores, falla: Option<Falla>, gestionId: nat)
    returns (r: Result<nat>)
    requires tabla.Valid()
    modifies tabla
    ensures tabla.Valid()
    ensures r.Failure? <==> falla.Some? && falla.value.etapa == EnPrograma
    ensures r.Failure? ==> r.error == falla.value.mensaje && tabla.filas == old(tabla.filas)
    ensures r.Success? ==>
      BuscarPrograma(tabla.filas, v.codCarrera, gestionId).Some? && r.value == IdPrograma(tabla.filas, v.codCarrera, gestionId)
    ensures BuscarPrograma(old(tabla.filas), v.codCarrera, gestionId).Some? ==> tabla.filas == old(tabla.filas)
    ensures r.Success? && BuscarPrograma(old(tabla.filas), v.codCarrera, gestionId).None? ==>
      tabla.filas == old(tabla.filas) +
        [Programa(old(tabla.proximoId), v.programa.codFacultad, v.programa.nombreFacultad, v.codCarrera,
                  v.programa.nombreCarrera, v.programa.codPlan, "maestria", v.modalidad, "activo", None, gestionId)]
  {
    if falla.Some? && falla.value.etapa == EnPrograma {
      return Failure(falla.value.mensaje);
    }
    var programa := tabla.PrimeroOCrear(v.codCarrera, gestionId, v.programa, v.modalidad);
    r := Success(programa.id);
  }

  /**
   * The teacher step of model(): a row naming a teacher upserts it (last
   * wins), unless the exception strikes at this step. Returns the tutor the
   * thesis gets.
   */
  method RegistrarDocente(tabla: TablaDocentes, v: Valores, falla: Option<Falla>, gestionId: nat)
    returns (r: Result<Option<nat>>)
    requires tabla.Valid()
    modifies tabla
    ensures tabla.Valid()
    ensures r.Failure? <==> Lanza(AlcanceDe(v), falla) && falla.value.etapa == EnDocente
    ensures r.Failure? ==> r.error == falla.value.mensaje && tabla.filas == old(tabla.filas)
    ensures r.Success? ==> r.value == Tutor(tabla.filas, v, gestionId)
    ensures r.Success? && !Aplica(AlcanceDe(v), EnDocente) ==> tabla.filas == old(tabla.filas)
    ensures r.Success? && Aplica(AlcanceDe(v), EnDocente) ==>
      var k := BuscarDocente(tabla.filas, v.codDoc, gestionId);
      k.Some? && tabla.filas[k.value].nombreDoc == Some(v.nombreDoc)
      && tabla.filas[k.value].generoDoc == Some(v.generoDoc) && tabla.filas[k.value].estado == "activo"
  {
    if VacioPhp(v.codDoc) {
      return Success(None);
    }
    if falla.Some? && falla.value.etapa == EnDocente {
      return Failure(falla.value.mensaje);
    }
    var docente := tabla.CrearDesdeExcel(v.codDoc, gestionId, Some(v.nombreDoc), Some(v.generoDoc));
    r := Success(Some(docente.id));
  }

  /**
   * The certificate step of model(), for a defended final project:
   * Certificacion::crearDesdeExcel, unless the exception strikes at this
   * step. Returns the exception's message, if it was thrown.
   */
  method RegistrarCertificacion(tabla: TablaCertificaciones, a: Alcance, d: DatosDefensa, programaId: nat,
                                falla: Option<Falla>, gestionId: nat, anio: nat)
    returns (error: Option<string>)
    requires tabla.Valid() && a.conDefensa == d.fechaDefensa.Some?
    modifies tabla
    ensures tabla.Valid()
    ensures error.Some? <==> Lanza(a, falla) && falla.value.etapa == EnCertificacion
    ensures error.Some? ==> error.value == falla.value.mensaje
    ensures error.Some? || !a.conDefensa ==> tabla.filas == old(tabla.filas)
    ensures error.None? && a.conDefensa ==>
      tabla.filas == old(tabla.filas) +
        [NuevaCertificacion(old(tabla.proximoId), old(tabla.filas), d, programaId, gestionId, anio)]
  {
    if d.fechaDefensa.None? {
      return None;
    }
    if falla.Some? && falla.value.etapa == EnCertificacion {
      return Some(falla.value.mensaje);
    }
    var certificacion := tabla.CrearDesdeExcel(d, programaId, gestionId, anio);
    error := None;
  }

  /**
   * The thesis step of model(), for a defended final project:
   * Tesis::crearDesdeExcel with the row's teacher as tutor, unless the
   * exception strikes at this step. Returns the exception's message, if it
   * was thrown.
   */
  method RegistrarTesis(tabla: TablaTesis, a: Alcance, d: DatosDefensa, programaId: nat, tutor: Option<nat>,
                        falla: Option<Falla>, gestionId: nat, anio: nat)
    returns (error: Option<string>)
    requires tabla.Valid() && a.conDefensa == d.fechaDefensa.Some?
    modifies tabla
    ensures tabla.Valid()
    ensures error.Some? <==> Lanza(a, falla) && falla.value.etapa == EnTesis
    ensures error.Some? ==> error.value == falla.value.mensaje
    ensures error.Some? || !a.conDefensa ==> tabla.filas == old(tabla.filas)
    ensures error.None? && a.conDefensa ==>
      tabla.filas == old(tabla.filas) + [NuevaTesis(old(tabla.proximoId), old(tabla.filas), d, programaId, gestionId, tutor, anio)]
  {
    if d.fechaDefensa.None? {
      return None;
    }
    if falla.Some? && falla.value.etapa == EnTesis {
      return Some(falla.value.mensaje);
    }
    var t := tabla.CrearDesdeExcel(d, programaId, gestionId, tutor, anio);
    error := None;
  }

  /** The defence steps of model(): the certificate, then the thesis, each unless the exception strikes at its step. */
  method RegistrarDefensa(certificaciones: TablaCertificaciones, tesis: TablaTesis, a: Alcance, d: DatosDefensa,
                          programaId: nat, tutor: Option<nat>, falla: Option<Falla>, gestionId: nat, anio: nat)
    returns (error: Option<string>)
    requires certificaciones.Valid() && tesis.Valid()
    requires a.conDefensa == d.fechaDefensa.Some?
    requires !(Lanza(a, falla) && Orden(falla.value.etapa) <= Orden(EnDato))
    modifies certificaciones, tesis
    ensures certificaciones.Valid() && tesis.Valid()
    ensures error.Some? <==> Lanza(a, falla)
    ensures error.Some? ==> error.value == falla.value.mensaje
  {
    error := RegistrarCertificacion(certificaciones, a, d, programaId, falla, gestionId, anio);
    if error.None? {
      error := RegistrarTesis(tesis, a, d, programaId, tutor, falla, gestionId, anio);
    }
  }

  /** The importer of one batch and its counters. */
  class ImportadorDatos {
    const cargaId: nat
    const gestionId: nat
    var procesados: nat
    var exitosos: nat
    var conError: nat
    var errores: seq<ErrorFila>
    /** The spreadsheet row numbers of the rows the rules rejected (SkipsFailures). */
    var rechazadas: seq<nat>

    /** Every processed row is a success or an error, and the errors name distinct, increasing rows. */
    ghost predicate Valid()
      reads this
    {
      procesados == exitosos + conError
      && |errores| == conError
      && (errores != [] ==> 1 <= errores[0].fila && errores[|errores| - 1].fila <= procesados)
      && (forall i :: 0 < i < |errores| ==> errores[i - 1].fila < errores[i].fila)
    }

    constructor(cargaId: nat, gestionId: nat)
      ensures Valid()
      ensures this.cargaId == cargaId && this.gestionId == gestionId
      ensures procesados == 0 && exitosos == 0 && conError == 0 && errores == [] && rechazadas == []
    {
      this.cargaId := cargaId;
      this.gestionId := gestionId;
      procesados := 0;
      exitosos := 0;
      conError := 0;
      errores := [];
      rechazadas := [];
    }

    /**
     * The first steps of model()'s try block: the program, the teacher and
     * the academic row, stopped by the exception `falla` at its step. Returns
     * the stored row, or the message, with the program's id and the tutor.
     */
    method AlmacenarDato(db: BaseDatos, v: Valores, falla: Option<Falla>)
      returns (r: Result<DatoAcademico>, programaId: nat, tutor: Option<nat>)
      requires db.Valid()
      modifies db.programas, db.docentes, db.datos
      ensures db.Valid()
      ensures r.Failure? <==> Lanza(AlcanceDe(v), falla) && Orden(falla.value.etapa) <= Orden(EnDato)
      ensures r.Failure? ==> r.error == falla.value.mensaje
      ensures r.Success? ==> r.value == v.dato.(id := old(db.datos.proximoId))
      ensures r.Success? ==> programaId == IdPrograma(db.programas.filas, v.codCarrera, gestionId)
      ensures r.Success? ==> tutor == Tutor(db.docentes.filas, v, gestionId)
      // the academic row
      ensures !Llega(AlcanceDe(v), falla, EnDato) ==> db.datos.filas == old(db.datos.filas)
      ensures Llega(AlcanceDe(v), falla, EnDato) ==>
        db.datos.filas == old(db.datos.filas) + [v.dato.(id := old(db.datos.proximoId))]
    {
      tutor := None;
      var programa := RegistrarPrograma(db.programas, v, falla, gestionId);
      if programa.Failure? {
        return Failure(programa.error), 0, tutor;
      }
      programaId := programa.value;
      var docente := RegistrarDocente(db.docentes, v, falla, gestionId);
      if docente.Failure? {
        return Failure(docente.error), programaId, tutor;
      }
      tutor := docente.value;
      if falla.Some? && falla.value.etapa == EnDato {
        return Failure(falla.value.mensaje), programaId, tutor;
      }
      var dato := db.datos.Crear(v.dato);
      r := Success(dato);
    }

    /**
     * The try block of model(): the steps that store one row, stopped by the
     * exception `falla` at its step, if the row performs that step; what the
     * steps before it wrote stays written. Returns the stored academic row,
     * or the exception's message.
     */
    method Almacenar(db: BaseDatos, v: Valores, falla: Option<Falla>, anio: nat) returns (r: Result<DatoAcademico>)
      requires db.Valid()
      modifies db.programas, db.docentes, db.datos, db.certificaciones, db.tesis
      ensures db.Valid()
      ensures r.Failure? <==> Lanza(AlcanceDe(v), falla)
      ensures r.Failure? ==> r.error == falla.value.mensaje
      ensures r.Success? ==> r.value == v.dato.(id := old(db.datos.proximoId))
      ensures !Llega(AlcanceDe(v), falla, EnDato) ==> db.datos.filas == old(db.datos.filas)
      ensures Llega(AlcanceDe(v), falla, EnDato) ==>
        db.datos.filas == old(db.datos.filas) + [v.dato.(id := old(db.datos.proximoId))]
    {
      var programaId, tutor;
      r, programaId, tutor := AlmacenarDato(db, v, falla);
      if r.Failure? {
        return;
      }
      var d := DefensaDe(r.value);
      assert d.fechaDefensa == v.dato.fechaDefensa;
      var error := RegistrarDefensa(db.certificaciones, db.tesis, AlcanceDe(v), d, programaId, tutor, falla, gestionId,
                                    anio);
      if error.Some? {
        r := Failure(error.value);
      }
    }

    /**
     * The body of model() once the row's values are derived: the row is
     * counted as processed, then stored; a success is counted as such and
     * returns the academic row, an exception is counted as an error,
     * recorded under the processed count with the raw row, and returns
     * nothing.
     */
    method Procesar(db: BaseDatos, fila: Fila, v: Valores, falla: Option<Falla>, anio: nat)
      returns (r: Option<DatoAcademico>)
      requires Valid() && db.Valid() && v.dato.cargaId == cargaId
      modifies this, db.programas, db.docentes, db.datos, db.certificaciones, db.tesis
      ensures Valid() && db.Valid()
      ensures procesados == old(procesados) + 1 && rechazadas == old(rechazadas)
      ensures !Lanza(AlcanceDe(v), falla) ==>
        r == Some(v.dato.(id := old(db.datos.proximoId)))
        && exitosos == old(exitosos) + 1 && conError == old(conError) && errores == old(errores)
      ensures Lanza(AlcanceDe(v), falla) ==>
        r.None? && exitosos == old(exitosos) && conError == old(conError) + 1
        && errores == old(errores) + [ErrorFila(procesados, falla.value.mensaje, fila)]
      ensures old(db.datos.filas) <= db.datos.filas
      ensures forall i :: |old(db.datos.filas)| <= i < |db.datos.filas| ==> db.datos.filas[i].cargaId == cargaId
    {
      procesados := procesados + 1;
      var resultado := Almacenar(db, v, falla, anio);
      if resultado.Success? {
        exitosos := exitosos + 1;
        r := Some(resultado.value);
      } else {
        conError := conError + 1;
        errores := errores + [ErrorFila(procesados, resultado.error, fila)];
        r := None;
      }
    }

    /**
     * model(): the values read off the row (the normalised modality and
     * gender, the parsed dates and grades), then the row counted and stored.
     */
    method Modelo(db: BaseDatos, fila: Fila, falla: Option<Falla>, anio: nat, serial: string -> Fecha)
      returns (r: Option<DatoAcademico>)
      requires Valid() && db.Valid()
      modifies this, db.programas, db.docentes, db.datos, db.certificaciones, db.tesis
      ensures Valid() && db.Valid()
      ensures procesados == old(procesados) + 1 && rechazadas == old(rechazadas)
      ensures !Lanza(AlcanceFila(fila, serial), falla) ==>
        r == Some(DatoDeFila(fila, cargaId, gestionId, serial).(id := old(db.datos.proximoId)))
        && exitosos == old(exitosos) + 1 && conError == old(conError) && errores == old(errores)
      ensures Lanza(AlcanceFila(fila, serial), falla) ==>
        r.None? && exitosos == old(exitosos) && conError == old(conError) + 1
        && errores == old(errores) + [ErrorFila(procesados, falla.value.mensaje, fila)]
      ensures old(db.datos.filas) <= db.datos.filas
      ensures forall i :: |old(db.datos.filas)| <= i < |db.datos.filas| ==> db.datos.filas[i].cargaId == cargaId
    {
      var v := ValoresDe(fila, cargaId, gestionId, serial);
      AlcanceValores(fila, cargaId, gestionId, serial);
      r := Procesar(db, fila, v, falla, anio);
    }
  
    /**
     * One spreadsheet row as the import treats it: an empty row is skipped, a
     * row the rules reject is recorded under its spreadsheet row number
     * `numero`, and any other row goes through model().
     */
    method ProcesarRenglon(db: BaseDatos, r: Renglon, numero: nat, anio: nat, serial: string -> Fecha)
      requires Valid() && db.Valid()
      modifies this, db.programas, db.docentes, db.datos, db.certificaciones, db.tesis
      ensures Valid() && db.Valid()
      ensures procesados == old(procesados) + (if EsProcesado(r) then 1 else 0)
      ensures exitosos == old(exitosos) + (if Exito(r, serial) then 1 else 0)
      ensures rechazadas == old(rechazadas) + (if EsRechazado(r) then [numero] else [])
      ensures old(db.datos.filas) <= db.datos.filas
      ensures forall i :: |old(db.datos.filas)| <= i < |db.datos.filas| ==> db.datos.filas[i].cargaId == cargaId
    {
      if FilaVacia(r.fila) {
        return;
      }
      if !CumpleReglas(r.fila) {
        rechazadas := rechazadas + [numero];
        return;
      }
      var _ := Modelo(db, r.fila, r.falla, anio, serial);
    }

    /**
     * Row `i` of the sheet, with the counters so far standing for the rows
     * before it: afterwards they stand for the rows up to and including it.
     */
    method Siguiente(db: BaseDatos, rs: seq<Renglon>, i: nat, anio: nat, serial: string -> Fecha,
                     ghost procesados0: nat, ghost exitosos0: nat, ghost rechazadas0: seq<nat>,
                     ghost datos0: seq<DatoAcademico>)
      requires i < |rs| && Valid() && db.Valid()
      requires procesados == procesados0 + Contar(rs[..i], EsProcesado)
      requires exitosos == exitosos0 + Exitosos(rs[..i], serial)
      requires rechazadas == rechazadas0 + Posiciones(rs[..i], EsRechazado, 2)
      requires datos0 <= db.datos.filas
      requires forall j :: |datos0| <= j < |db.datos.filas| ==> db.datos.filas[j].cargaId == cargaId
      modifies this, db.programas, db.docentes, db.datos, db.certificaciones, db.tesis
      ensures Valid() && db.Valid()
      ensures procesados == procesados0 + Contar(rs[..i + 1], EsProcesado)
      ensures exitosos == exitosos0 + Exitosos(rs[..i + 1], serial)
      ensures rechazadas == rechazadas0 + Posiciones(rs[..i + 1], EsRechazado, 2)
      ensures datos0 <= db.datos.filas
      ensures forall j :: |datos0| <= j < |db.datos.filas| ==> db.datos.filas[j].cargaId == cargaId
    {
      Avanzar(rs, i, serial);
      Asociar(rechazadas0, Posiciones(rs[..i], EsRechazado, 2), if EsRechazado(rs[i]) then [i + 2] else []);
      ProcesarRenglon(db, rs[i], i + 2, anio, serial);
    }

    /**
     * Excel::import of a whole sheet: the rows below the heading row, in
     * order, so the first data row is spreadsheet row 2. The counters grow by
     * the processed rows and the successes among them, and the rejected rows
     * are recorded by row number; academic rows are only added, all of them
     * under this batch.
     */
    method Importar(db: BaseDatos, rs: seq<Renglon>, anio: nat, serial: string -> Fecha)
      requires Valid() && db.Valid()
      modifies this, db.programas, db.docentes, db.datos, db.certificaciones, db.tesis
      ensures Valid() && db.Valid()
      ensures procesados == old(procesados) + Contar(rs, EsProcesado)
      ensures exitosos == old(exitosos) + Exitosos(rs, serial)
      ensures rechazadas == old(rechazadas) + Posiciones(rs, EsRechazado, 2)
      ensures old(db.datos.filas) <= db.datos.filas
      ensures forall i :: |old(db.datos.filas)| <= i < |db.datos.filas| ==> db.datos.filas[i].cargaId == cargaId
    {
      var i := 0;
      while i < |rs|
        invariant 0 <= i <= |rs|
        invariant Valid() && db.Valid()
        invariant procesados == old(procesados) + Contar(rs[..i], EsProcesado)
        invariant exitosos == old(exitosos) + Exitosos(rs[..i], serial)
        invariant rechazadas == old(rechazadas) + Posiciones(rs[..i], EsRechazado, 2)
        invariant old(db.datos.filas) <= db.datos.filas
        invariant forall j :: |old(db.datos.filas)| <= j < |db.datos.filas| ==> db.datos.filas[j].cargaId == cargaId
      {
        Siguiente(db, rs, i, anio, serial, old(procesados), old(exitosos), old(rechazadas), old(db.datos.filas));
        i := i + 1;
      }
      assert rs[..i] == rs;
    }
  }
}
