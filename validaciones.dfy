/**
 * The form requests of certificates, theses, teachers and programs
 * (app/Http/Requests/Store*Request.php, Update*Request.php) as validity
 * predicates over the submitted fields, and what a request that passes
 * guarantees about the values stored from it. Field values are taken as the
 * framework's middleware leaves them (trimmed, with empty strings as null).
 */
module Validaciones {
  import opened Wrappers
  import opened Texto
  import opened Fechas
  import opened Reglas

  const Generos: seq<string> := ["M", "F"]
  const EstadosCertificacion: seq<string> := ["pendiente", "emitido", "entregado"]
  const EstadosTesis: seq<string> := ["en_desarrollo", "defendida", "aprobada", "rechazada"]
  const EstadosActivo: seq<string> := ["activo", "inactivo"]
  const TiposPrograma: seq<string> := ["maestria", "doctorado", "especialidad"]
  const Modalidades: seq<string> := ["presencial", "virtual", "semipresencial"]

  /** `required|in:...`: present, not blank, and one of the options. */
  predicate RequeridoEn(o: Option<string>, opciones: seq<string>) {
    Requerido(o) && EnLista(o, opciones)
  }

  /** A present, non-blank field that passes `in:` holds one of the options. */
  lemma RequeridoEnLista(o: Option<string>, opciones: seq<string>)
    requires RequeridoEn(o, opciones)
    ensures o.Some? && o.value in opciones
  {
  }

  // Certificates

  datatype SolicitudCertificacion = SolicitudCertificacion(
    nroRegistroEst: Option<string>,
    nombreEst: Option<string>,
    generoEst: Option<string>,
    nota: Option<string>,
    notaDefensa: Option<string>,
    fechaDefensa: Option<string>,
    programaId: Option<nat>,
    estado: Option<string>)

  /** StoreCertificacionRequest::rules(), against the ids of the programs table. */
  predicate CertificacionValida(s: SolicitudCertificacion, programas: seq<nat>) {
    Requerido(s.nroRegistroEst) && MaxLargo(s.nroRegistroEst, 20)
    && Requerido(s.nombreEst) && MaxLargo(s.nombreEst, 255)
    && RequeridoEn(s.generoEst, Generos)
    && EsNota(s.nota) && EsNota(s.notaDefensa)
    && EsFecha(s.fechaDefensa)
    && s.programaId.Some? && ExisteId(s.programaId, programas)
    && RequeridoEn(s.estado, EstadosCertificacion)
  }

  /** `$request->validated()` of a certificate, with the grades in hundredths and the date read. */
  datatype CertificacionValidada = CertificacionValidada(
    nroRegistroEst: string,
    nombreEst: string,
    generoEst: string,
    nota: Option<int>,
    notaDefensa: Option<int>,
    fechaDefensa: Option<Fecha>,
    programaId: nat,
    estado: string)

  /** A grade field that passes its rule is stored between 0.00 and 100.00, or not at all. */
  function NotaValidada(o: Option<string>): (r: Option<int>)
    requires EsNota(o)
    ensures r.Some? ==> 0 <= r.value <= 10000
    ensures !Ausente(o) ==> r.Some?
    ensures Ausente(o) ==> r.None?
    ensures !Ausente(o) ==> r == NotaDe(o)
  {
    if Ausente(o) then None
    else
      CentesimasEnRango(LeerDecimal(o.value).value);
      NotaDe(o)
  }

  /**
   * The values a valid certificate request stores: a number and a name, a
   * gender M or F, grades between 0 and 100, an existing program and one of
   * the three states.
   */
  function ValidarCertificacion(s: SolicitudCertificacion, programas: seq<nat>): (v: CertificacionValidada)
    requires CertificacionValida(s, programas)
    ensures v.generoEst in Generos && v.estado in EstadosCertificacion && v.programaId in programas
    ensures 1 <= |v.nroRegistroEst| <= 20 && 1 <= |v.nombreEst| <= 255
    ensures v.nota.Some? ==> 0 <= v.nota.value <= 10000
    ensures v.notaDefensa.Some? ==> 0 <= v.notaDefensa.value <= 10000
    ensures Ausente(s.fechaDefensa) <==> v.fechaDefensa.None?
    ensures && v.nroRegistroEst == s.nroRegistroEst.value && v.nombreEst == s.nombreEst.value
            && v.generoEst == s.generoEst.value && v.programaId == s.programaId.value && v.estado == s.estado.value
    ensures v.nota == NotaValidada(s.nota) && v.notaDefensa == NotaValidada(s.notaDefensa)
    ensures !Ausente(s.fechaDefensa) ==> v.fechaDefensa == LeerFecha(s.fechaDefensa.value)
  {
    CertificacionValidada(s.nroRegistroEst.value, s.nombreEst.value, s.generoEst.value, NotaValidada(s.nota),
                          NotaValidada(s.notaDefensa), if Ausente(s.fechaDefensa) then None else FechaDe(s.fechaDefensa),
                          s.programaId.value, s.estado.value)
  }

  // Theses

  datatype SolicitudTesis = SolicitudTesis(
    titulo: Option<string>,
    nroRegistroEst: Option<string>,
    nombreEst: Option<string>,
    fechaDefensa: Option<string>,
    notaDefensa: Option<string>,
    estado: Option<string>,
    tutorId: Option<nat>,
    programaId: Option<nat>)

  /** StoreTesisRequest::rules(), against the ids of the teachers and programs tables. */
  predicate TesisValida(s: SolicitudTesis, docentes: seq<nat>, programas: seq<nat>) {
    Requerido(s.titulo) && MaxLargo(s.titulo, 500)
    && Requerido(s.nroRegistroEst) && MaxLargo(s.nroRegistroEst, 20)
    && Requerido(s.nombreEst) && MaxLargo(s.nombreEst, 255)
    && EsFecha(s.fechaDefensa)
    && EsNota(s.notaDefensa)
    && RequeridoEn(s.estado, EstadosTesis)
    && ExisteId(s.tutorId, docentes)
    && s.programaId.Some? && ExisteId(s.programaId, programas)
  }

  datatype TesisValidada = TesisValidada(
    titulo: string,
    nroRegistroEst: string,
    nombreEst: string,
    fechaDefensa: Option<Fecha>,
    notaDefensa: Option<int>,
    estado: string,
    tutorId: Option<nat>,
    programaId: nat)

  /**
   * The values a valid thesis request stores: a title of at most 500
   * characters, a grade between 0 and 100, one of the four states, an
   * existing tutor when one is given, and an existing program.
   */
  function ValidarTesis(s: SolicitudTesis, docentes: seq<nat>, programas: seq<nat>): (v: TesisValidada)
    requires TesisValida(s, docentes, programas)
    ensures 1 <= |v.titulo| <= 500 && 1 <= |v.nroRegistroEst| <= 20 && 1 <= |v.nombreEst| <= 255
    ensures v.estado in EstadosTesis && v.programaId in programas
    ensures v.tutorId == s.tutorId && (v.tutorId.Some? ==> v.tutorId.value in docentes)
    ensures v.notaDefensa.Some? ==> 0 <= v.notaDefensa.value <= 10000
    ensures Ausente(s.fechaDefensa) <==> v.fechaDefensa.None?
    ensures && v.titulo == s.titulo.value && v.nroRegistroEst == s.nroRegistroEst.value
            && v.nombreEst == s.nombreEst.value && v.programaId == s.programaId.value && v.estado == s.estado.value
    ensures v.notaDefensa == NotaValidada(s.notaDefensa)
    ensures !Ausente(s.fechaDefensa) ==> v.fechaDefensa == LeerFecha(s.fechaDefensa.value)
  {
    TesisValidada(s.titulo.value, s.nroRegistroEst.value, s.nombreEst.value,
                  if Ausente(s.fechaDefensa) then None else FechaDe(s.fechaDefensa), NotaValidada(s.notaDefensa),
                  s.estado.value, s.tutorId, s.programaId.value)
  }

  // Teachers

  datatype SolicitudDocente = SolicitudDocente(
    codDoc: Option<string>,
    nombreDoc: Option<string>,
    generoDoc: Option<string>,
    email: Option<string>,
    telefono: Option<string>,
    estado: Option<string>)

  /** `email`: one '@' with text on both sides (RFC 5322's full grammar is not modelled). */
  predicate EsCorreo(o: Option<string>) {
    Ausente(o)
    || exists i :: 0 < i < |o.value| - 1 && o.value[i] == '@' && '@' !in o.value[..i] && '@' !in o.value[i + 1..]
  }

  /**
   * The rules of StoreDocenteRequest (`ignorar` = None) and
   * UpdateDocenteRequest (`ignorar` = the edited teacher's id), against the
   * (id, cod_doc) pairs of the teachers table.
   */
  predicate DocenteValido(s: SolicitudDocente, codigos: seq<(nat, string)>, ignorar: Option<nat>) {
    Requerido(s.codDoc) && MaxLargo(s.codDoc, 50) && Unico(s.codDoc, codigos, ignorar)
    && Requerido(s.nombreDoc) && MaxLargo(s.nombreDoc, 255)
    && RequeridoEn(s.generoDoc, Generos)
    && EsCorreo(s.email) && MaxLargo(s.email, 255)
    && MaxLargo(s.telefono, 50)
    && RequeridoEn(s.estado, EstadosActivo)
  }

  // Programs

  datatype SolicitudPrograma = SolicitudPrograma(
    codCarrera: Option<string>,
    nombreCarrera: Option<string>,
    tipo: Option<string>,
    modalidad: Option<string>,
    estado: Option<string>,
    coordinadorId: Option<nat>)

  /**
   * The rules of StoreProgramaRequest (`ignorar` = None) and
   * UpdateProgramaRequest (`ignorar` = the edited program's id), against the
   * (id, cod_carrera) pairs of the programs table and the teachers' ids.
   */
  predicate ProgramaValido(s: SolicitudPrograma, codigos: seq<(nat, string)>, docentes: seq<nat>, ignorar: Option<nat>) {
    Requerido(s.codCarrera) && MaxLargo(s.codCarrera, 50) && Unico(s.codCarrera, codigos, ignorar)
    && Requerido(s.nombreCarrera) && MaxLargo(s.nombreCarrera, 255)
    && RequeridoEn(s.tipo, TiposPrograma)
    && RequeridoEn(s.modalidad, Modalidades)
    && RequeridoEn(s.estado, EstadosActivo)
    && ExisteId(s.coordinadorId, docentes)
  }

  // Uniqueness on create and on update

  /** A code that passes uniqueness on create also passes it on any update. */
  lemma {:induction false} UnicoAltaImplicaEdicion(o: Option<string>, codigos: seq<(nat, string)>, id: nat)
    requires Unico(o, codigos, None)
    ensures Unico(o, codigos, Some(id))
  {
    if !Ausente(o) {
      forall i | 0 <= i < |codigos| && Some(codigos[i].0) != Some(id)
        ensures codigos[i].1 != o.value
      {
        assert Some(codigos[i].0) != None;
      }
    }
  }

  /**
   * A record keeping its own code passes uniqueness on update when no other
   * record holds that code, while the create rule rejects the same code.
   */
  lemma UnicoPropio(cod: string, codigos: seq<(nat, string)>, id: nat, k: nat)
    requires Recortar(cod) != [] && k < |codigos| && codigos[k] == (id, cod)
    requires forall i :: 0 <= i < |codigos| && codigos[i].1 == cod ==> codigos[i].0 == id
    ensures Unico(Some(cod), codigos, Some(id))
    ensures !Unico(Some(cod), codigos, None)
  {
  }

  /** Every teacher request valid on create is valid as an update of any teacher. */
  lemma DocenteAltaImplicaEdicion(s: SolicitudDocente, codigos: seq<(nat, string)>, id: nat)
    requires DocenteValido(s, codigos, None)
    ensures DocenteValido(s, codigos, Some(id))
  {
    UnicoAltaImplicaEdicion(s.codDoc, codigos, id);
  }

  /** Every program request valid on create is valid as an update of any program. */
  lemma ProgramaAltaImplicaEdicion(s: SolicitudPrograma, codigos: seq<(nat, string)>, docentes: seq<nat>, id: nat)
    requires ProgramaValido(s, codigos, docentes, None)
    ensures ProgramaValido(s, codigos, docentes, Some(id))
  {
    UnicoAltaImplicaEdicion(s.codCarrera, codigos, id);
  }
}
