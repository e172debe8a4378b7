/**
 * The academic-term registry (app/Services/GestionService.php): the
 * `gestiones` table, at most one of whose rows is the current term
 * (`es_actual`), kept that way by clearing the flag on the other rows before
 * setting it on one.
 *
 * The specification functions say what each service operation leaves in the
 * table; the class ServicioGestiones performs the same operations in place and
 * is proved against them.
 */
module Gestiones {
  import opened Wrappers
  import opened Texto
  import opened Fechas
  import opened Ordenamiento

  datatype Estado = Activo | Inactivo

  function NombreEstado(e: Estado): string {
    match e
    case Activo => "activo"
    case Inactivo => "inactivo"
  }

  /** One row of `gestiones`. */
  datatype Gestion = Gestion(
    id: nat,
    nombre: string,
    descripcion: Option<string>,
    inicio: Fecha,
    fin: Fecha,
    estado: Estado,
    esActual: bool)

  /**
   * The validated input of a create. An absent `estado` or `es_actual` takes
   * the column default ('activo', false).
   */
  datatype Datos = Datos(
    nombre: string,
    descripcion: Option<string>,
    inicio: Fecha,
    fin: Fecha,
    estado: Option<Estado>,
    esActual: Option<bool>)

  /** The validated input of an update: an absent key leaves its column as it is. */
  datatype Cambios = Cambios(
    nombre: Option<string>,
    descripcion: Option<Option<string>>,
    inicio: Option<Fecha>,
    fin: Option<Fecha>,
    estado: Option<Estado>,
    esActual: Option<bool>)

  /** `$data['es_actual'] ?? false`. */
  predicate MarcaActual(o: Option<bool>) {
    o == Some(true)
  }

  /** The invariant of the table: no two rows are the current term. */
  ghost predicate AlMasUnaActual(s: seq<Gestion>) {
    forall i, j :: 0 <= i < |s| && 0 <= j < |s| && s[i].esActual && s[j].esActual ==> i == j
  }

  /** Primary keys are unique. */
  ghost predicate IdsUnicos(s: seq<Gestion>) {
    forall i, j :: 0 <= i < |s| && 0 <= j < |s| && s[i].id == s[j].id ==> i == j
  }

  predicate Existe(s: seq<Gestion>, id: nat) {
    exists i :: 0 <= i < |s| && s[i].id == id
  }

  /** No row is the current term. */
  ghost predicate NingunaActual(s: seq<Gestion>) {
    forall i :: 0 <= i < |s| ==> !s[i].esActual
  }

  /** desactivarTodasLasGestiones: one bulk update of `es_actual` to false. */
  function DesactivarTodas(s: seq<Gestion>): (r: seq<Gestion>)
    ensures |r| == |s| && NingunaActual(r)
    ensures forall i :: 0 <= i < |s| ==> r[i].(esActual := s[i].esActual) == s[i]
  {
    seq(|s|, i requires 0 <= i < |s| => s[i].(esActual := false))
  }

  /** desactivarTodasLasGestionesExcepto: the same bulk update, skipping the row `id`. */
  function DesactivarExcepto(s: seq<Gestion>, id: nat): (r: seq<Gestion>)
    ensures |r| == |s|
    ensures forall i :: 0 <= i < |s| ==> r[i].(esActual := s[i].esActual) == s[i]
    ensures forall i :: 0 <= i < |s| && r[i].esActual ==> s[i].id == id
    ensures forall i :: 0 <= i < |s| && s[i].id == id ==> r[i] == s[i]
  {
    seq(|s|, i requires 0 <= i < |s| => if s[i].id == id then s[i] else s[i].(esActual := false))
  }

  /** The row Gestion::create inserts with primary key `id`. */
  function Nueva(id: nat, d: Datos): Gestion {
    Gestion(id, d.nombre, d.descripcion, d.inicio, d.fin, d.estado.GetOr(Activo), d.esActual.GetOr(false))
  }

  /** crearGestion: when the new term is marked current, every other term stops being current first. */
  function Crear(s: seq<Gestion>, id: nat, d: Datos): (r: seq<Gestion>)
    ensures |r| == |s| + 1 && r[|s|] == Nueva(id, d)
    ensures MarcaActual(d.esActual) ==> r[|s|].esActual && NingunaActual(r[..|s|])
    ensures !MarcaActual(d.esActual) ==> r[..|s|] == s && !r[|s|].esActual
    ensures AlMasUnaActual(s) ==> AlMasUnaActual(r)
  {
    (if MarcaActual(d.esActual) then DesactivarTodas(s) else s) + [Nueva(id, d)]
  }

  /** `$gestion->update($data)`: every key present overwrites its column. */
  function Aplicar(g: Gestion, c: Cambios): Gestion {
    g.(nombre := c.nombre.GetOr(g.nombre),
       descripcion := c.descripcion.GetOr(g.descripcion),
       inicio := c.inicio.GetOr(g.inicio),
       fin := c.fin.GetOr(g.fin),
       estado := c.estado.GetOr(g.estado),
       esActual := c.esActual.GetOr(g.esActual))
  }

  /** Replaces the row `id` by `Aplicar` of it. */
  function Reemplazar(s: seq<Gestion>, id: nat, c: Cambios): (r: seq<Gestion>)
    ensures |r| == |s|
  {
    seq(|s|, i requires 0 <= i < |s| => if s[i].id == id then Aplicar(s[i], c) else s[i])
  }

  /**
   * actualizarGestion: when the update marks the term current, every other
   * term stops being current; with `es_actual` false or absent no other row
   * is touched.
   */
  function Actualizar(s: seq<Gestion>, id: nat, c: Cambios): (r: seq<Gestion>)
    ensures |r| == |s|
    ensures forall i :: 0 <= i < |s| && s[i].id == id ==> r[i] == Aplicar(s[i], c)
    ensures !MarcaActual(c.esActual) ==> forall i :: 0 <= i < |s| && s[i].id != id ==> r[i] == s[i]
    ensures MarcaActual(c.esActual) ==>
      forall i :: 0 <= i < |s| && s[i].id != id ==> r[i] == s[i].(esActual := false)
  {
    Reemplazar(if MarcaActual(c.esActual) then DesactivarExcepto(s, id) else s, id, c)
  }

  /** activarGestion as intended: the term becomes the current one and 'activo'; no other term is current. */
  function Activar(s: seq<Gestion>, id: nat): (r: seq<Gestion>)
    ensures |r| == |s|
    ensures forall i :: 0 <= i < |s| && s[i].id == id ==>
      r[i] == s[i].(esActual := true, estado := Activo)
    ensures forall i :: 0 <= i < |s| && s[i].id != id ==> r[i] == s[i].(esActual := false)
  {
    seq(|s|, i requires 0 <= i < |s| =>
      if s[i].id == id then s[i].(esActual := true, estado := Activo) else s[i].(esActual := false))
  }

  /**
   * activarGestion as written. The bulk update clears the flag in the table
   * but not in the loaded model, so `update(['es_actual' => true, ...])`
   * writes `es_actual` only when the loaded term was not already current:
   * a term that was current ends with the flag cleared.
   */
  function ActivarComoEscrito(s: seq<Gestion>, id: nat): (r: seq<Gestion>)
    ensures |r| == |s|
  {
    seq(|s|, i requires 0 <= i < |s| =>
      if s[i].id == id then s[i].(esActual := !s[i].esActual, estado := Activo) else s[i].(esActual := false))
  }

  /** eliminarGestion's delete: the table without the row `id`, the rest in order. */
  function Eliminar(s: seq<Gestion>, id: nat): (r: seq<Gestion>)
    ensures |r| <= |s|
    ensures forall g :: g in r <==> g in s && g.id != id
  {
    if s == [] then []
    else (if s[0].id == id then [] else [s[0]]) + Eliminar(s[1..], id)
  }

  /** tienesDatosAsociados: some teacher or some program belongs to the term. */
  predicate TieneDatos(docentes: seq<nat>, programas: seq<nat>, id: nat) {
    id in docentes || id in programas
  }

  /** The deletion guard shared by eliminarGestion and puedeEliminar. */
  predicate Eliminable(g: Gestion, docentes: seq<nat>, programas: seq<nat>) {
    !g.esActual && !TieneDatos(docentes, programas, g.id)
  }

  const RazonActual := "Es la gestión académica actual"
  const RazonDatos := "Tiene docentes o programas asociados"
  const ErrorActual := "No se puede eliminar la gestión actual."
  const ErrorDatos := "No se puede eliminar una gestión que tiene datos asociados."

  /** obtenerGestionActual: the first current term, if any. */
  function Actual(s: seq<Gestion>): (r: Option<Gestion>)
    ensures r.None? <==> NingunaActual(s)
    ensures r.Some? ==> r.value in s && r.value.esActual
  {
    if s == [] then None
    else if s[0].esActual then Some(s[0])
    else
      var r := Actual(s[1..]);
      assert NingunaActual(s[1..]) ==> NingunaActual(s) by {
        if NingunaActual(s[1..]) {
          forall i | 0 < i < |s| ensures !s[i].esActual { assert s[i] == s[1..][i - 1]; }
        }
      }
      r
  }

  /** With at most one current term, the current term is found wherever it is. */
  lemma {:induction false} ActualEsLaUnica(s: seq<Gestion>, k: nat)
    requires AlMasUnaActual(s) && k < |s| && s[k].esActual
    ensures Actual(s) == Some(s[k])
  {
    if k > 0 {
      assert !s[0].esActual;
      assert AlMasUnaActual(s[1..]) by {
        forall i, j | 0 <= i < |s| - 1 && 0 <= j < |s| - 1 && s[1..][i].esActual && s[1..][j].esActual
          ensures i == j
        {
          assert s[i + 1].esActual && s[j + 1].esActual;
        }
      }
      ActualEsLaUnica(s[1..], k - 1);
    }
  }

  /** After a create there is a current term if there was one before or the new term is marked current. */
  lemma CrearDejaActual(s: seq<Gestion>, id: nat, d: Datos)
    requires Actual(s).Some? || MarcaActual(d.esActual)
    ensures Actual(Crear(s, id, d)).Some?
  {
    var r := Crear(s, id, d);
    if !MarcaActual(d.esActual) {
      var k :| 0 <= k < |s| && s[k].esActual;
      assert r[k] == s[k];
    } else {
      assert r[|s|].esActual;
    }
  }

  /** Updating a term keeps at most one current term. */
  lemma ActualizarConserva(s: seq<Gestion>, id: nat, c: Cambios)
    requires IdsUnicos(s) && AlMasUnaActual(s)
    ensures AlMasUnaActual(Actualizar(s, id, c))
  {
    var r := Actualizar(s, id, c);
    forall i, j | 0 <= i < |r| && 0 <= j < |r| && r[i].esActual && r[j].esActual
      ensures i == j
    {
      if !MarcaActual(c.esActual) {
        assert s[i].esActual && s[j].esActual;
      }
    }
  }

  /** After activation the term is the current one and no other term is. */
  lemma ActivarDejaSoloEsa(s: seq<Gestion>, id: nat, k: nat)
    requires IdsUnicos(s) && k < |s| && s[k].id == id
    ensures AlMasUnaActual(Activar(s, id))
    ensures Actual(Activar(s, id)) == Some(s[k].(esActual := true, estado := Activo))
  {
    var r := Activar(s, id);
    ActualEsLaUnica(r, k);
  }

  /** Activating the term that is already current leaves no current term at all. */
  lemma ActivarComoEscritoPierdeActual(s: seq<Gestion>, id: nat, k: nat)
    requires IdsUnicos(s) && k < |s| && s[k].id == id && s[k].esActual
    ensures Actual(ActivarComoEscrito(s, id)) == None
  {
    var r := ActivarComoEscrito(s, id);
    forall i | 0 <= i < |r| ensures !r[i].esActual {
      if s[i].id == id { assert i == k; }
    }
  }

  /** Deleting a row keeps at most one current term. */
  lemma {:induction false} EliminarConserva(s: seq<Gestion>, id: nat)
    requires AlMasUnaActual(s)
    ensures AlMasUnaActual(Eliminar(s, id))
  {
    if s != [] {
      var t := s[1..];
      assert AlMasUnaActual(t) by {
        forall i, j | 0 <= i < |t| && 0 <= j < |t| && t[i].esActual && t[j].esActual
          ensures i == j
        {
          assert s[i + 1].esActual && s[j + 1].esActual;
        }
      }
      EliminarConserva(t, id);
      var r := Eliminar(s, id);
      var u := Eliminar(t, id);
      if s[0].id != id && s[0].esActual {
        assert r == [s[0]] + u;
        forall i | 0 <= i < |u| ensures !u[i].esActual {
          assert u[i] in t;
          var m :| 0 <= m < |t| && t[m] == u[i];
          assert s[m + 1] == u[i];
        }
      }
    }
  }

  /** Deleting a row keeps the primary keys unique. */
  lemma {:induction false} EliminarConservaIds(s: seq<Gestion>, id: nat)
    requires IdsUnicos(s)
    ensures IdsUnicos(Eliminar(s, id))
  {
    if s != [] {
      var t := s[1..];
      assert IdsUnicos(t) by {
        forall i, j | 0 <= i < |t| && 0 <= j < |t| && t[i].id == t[j].id
          ensures i == j
        {
          assert s[i + 1].id == s[j + 1].id;
        }
      }
      EliminarConservaIds(t, id);
      var u := Eliminar(t, id);
      if s[0].id != id {
        assert Eliminar(s, id) == [s[0]] + u;
        forall i | 0 <= i < |u| ensures u[i].id != s[0].id {
          assert u[i] in t;
          var m :| 0 <= m < |t| && t[m] == u[i];
          assert s[m + 1] == u[i];
        }
      }
    }
  }

  /** Number of rows with a given estado. */
  function ContarEstado(s: seq<Gestion>, e: Estado): (n: nat)
    ensures n <= |s|
  {
    if s == [] then 0 else (if s[0].estado == e then 1 else 0) + ContarEstado(s[1..], e)
  }

  /** Every term is either 'activo' or 'inactivo'. */
  lemma {:induction false} ActivasMasInactivas(s: seq<Gestion>)
    ensures ContarEstado(s, Activo) + ContarEstado(s, Inactivo) == |s|
  {
    if s != [] {
      ActivasMasInactivas(s[1..]);
    }
  }

  /** How many entries of `ids` (a foreign-key column) point at `id`. */
  function Contar(ids: seq<nat>, id: nat): (n: nat)
    ensures n <= |ids|
    ensures n == 0 <==> id !in ids
  {
    if ids == [] then 0 else (if ids[0] == id then 1 else 0) + Contar(ids[1..], id)
  }

  /** The sum over the terms of their related rows in `ids` (withCount then sum). */
  function SumaRelacionados(s: seq<Gestion>, ids: seq<nat>): nat {
    if s == [] then 0 else Contar(ids, s[0].id) + SumaRelacionados(s[1..], ids)
  }

  /** How many entries of `ids` point at some term of `s`. */
  function Pertenecen(ids: seq<nat>, s: seq<Gestion>): nat {
    if ids == [] then 0 else (if Existe(s, ids[0]) then 1 else 0) + Pertenecen(ids[1..], s)
  }

  /** Splitting off the first term splits the entries pointing into the table, when its id is not repeated. */
  lemma {:induction false} PertenecenCabeza(ids: seq<nat>, s: seq<Gestion>)
    requires s != [] && forall j :: 1 <= j < |s| ==> s[j].id != s[0].id
    ensures Pertenecen(ids, s) == Contar(ids, s[0].id) + Pertenecen(ids, s[1..])
  {
    if ids != [] {
      PertenecenCabeza(ids[1..], s);
      var x := ids[0];
      if Existe(s, x) && x != s[0].id {
        var i :| 0 <= i < |s| && s[i].id == x;
        assert s[1..][i - 1].id == x;
      }
      if Existe(s[1..], x) {
        var i :| 0 <= i < |s[1..]| && s[1..][i].id == x;
        assert s[i + 1].id == x;
      }
    }
  }

  /** With unique keys, summing each term's related rows counts the rows that point at some term. */
  lemma {:induction false} SumaEsPertenecen(s: seq<Gestion>, ids: seq<nat>)
    requires IdsUnicos(s)
    ensures SumaRelacionados(s, ids) == Pertenecen(ids, s)
  {
    if s == [] {
      PertenecenVacia(ids, s);
    } else {
      assert IdsUnicos(s[1..]) by {
        forall i, j | 0 <= i < |s[1..]| && 0 <= j < |s[1..]| && s[1..][i].id == s[1..][j].id ensures i == j {
          assert s[i + 1].id == s[j + 1].id;
        }
      }
      assert forall j :: 1 <= j < |s| ==> s[j].id != s[0].id;
      SumaEsPertenecen(s[1..], ids);
      PertenecenCabeza(ids, s);
    }
  }

  lemma {:induction false} PertenecenVacia(ids: seq<nat>, s: seq<Gestion>)
    requires s == []
    ensures Pertenecen(ids, s) == 0
  {
    if ids != [] {
      PertenecenVacia(ids[1..], s);
    }
  }

  lemma SumasDelResumen(s: seq<Gestion>, docentes: seq<nat>, programas: seq<nat>)
    ensures IdsUnicos(s) ==>
      SumaRelacionados(s, docentes) == Pertenecen(docentes, s) && SumaRelacionados(s, programas) == Pertenecen(programas, s)
  {
    if IdsUnicos(s) {
      SumaEsPertenecen(s, docentes);
      SumaEsPertenecen(s, programas);
    }
  }

  datatype Resumen = Resumen(
    totalGestiones: nat,
    gestionActual: Option<Gestion>,
    gestionesActivas: nat,
    gestionesInactivas: nat,
    totalDocentes: nat,
    totalProgramas: nat)

  /** obtenerResumenGestiones. */
  function ResumenDe(s: seq<Gestion>, docentes: seq<nat>, programas: seq<nat>): (r: Resumen)
    ensures r.gestionesActivas + r.gestionesInactivas == r.totalGestiones == |s|
    ensures r.gestionesActivas == ContarEstado(s, Activo) && r.gestionesInactivas == ContarEstado(s, Inactivo)
    ensures r.gestionActual == Actual(s)
    ensures IdsUnicos(s) ==> r.totalDocentes == Pertenecen(docentes, s) && r.totalProgramas == Pertenecen(programas, s)
  {
    ActivasMasInactivas(s);
    SumasDelResumen(s, docentes, programas);
    Resumen(|s|, Actual(s), ContarEstado(s, Activo), ContarEstado(s, Inactivo),
            SumaRelacionados(s, docentes), SumaRelacionados(s, programas))
  }

  /** The filters of buscarGestiones; an empty() filter is not applied. */
  datatype Filtros = Filtros(busqueda: Option<string>, estado: Option<string>, anio: Option<string>)

  predicate Aplica(f: Option<string>) {
    f.Some? && !VacioPhp(f.value)
  }

  /** A term passes the search: the text in its name or description, the estado, the name starting with "<year>-". */
  predicate Coincide(g: Gestion, f: Filtros) {
    (Aplica(f.busqueda) ==>
      Contiene(g.nombre, f.busqueda.value) ||
      (g.descripcion.Some? && Contiene(g.descripcion.value, f.busqueda.value))) &&
    (Aplica(f.estado) ==> NombreEstado(g.estado) == f.estado.value) &&
    (Aplica(f.anio) ==> EmpiezaCon(g.nombre, f.anio.value + "-"))
  }

  function Filtrar(s: seq<Gestion>, f: Filtros): (r: seq<Gestion>)
    ensures forall g :: g in r <==> g in s && Coincide(g, f)
    ensures multiset(r) <= multiset(s)
  {
    if s == [] then []
    else
      assert s == [s[0]] + s[1..];
      (if Coincide(s[0], f) then [s[0]] else []) + Filtrar(s[1..], f)
  }

  /** ORDER BY es_actual DESC, fecha_inicio DESC. */
  predicate VaAntes(a: Gestion, b: Gestion) {
    (a.esActual && !b.esActual) || (a.esActual == b.esActual && Ordinal(b.inicio) <= Ordinal(a.inicio))
  }

  lemma VaAntesEsOrden()
    ensures Total(VaAntes) && Transitiva(VaAntes)
  {
    forall a: Gestion, b: Gestion, c: Gestion | VaAntes(a, b) && VaAntes(b, c)
      ensures VaAntes(a, c)
    {
    }
  }

  /** buscarGestiones, all pages together. */
  function Buscar(s: seq<Gestion>, f: Filtros): seq<Gestion> {
    Ordenar(Filtrar(s, f), VaAntes)
  }

  /**
   * The search returns exactly the matching terms, the current one (if it
   * matches) first, then by start date, latest first.
   */
  lemma BuscarEsCorrecto(s: seq<Gestion>, f: Filtros)
    ensures forall g :: g in Buscar(s, f) <==> g in s && Coincide(g, f)
    ensures Ordenada(Buscar(s, f), VaAntes)
    ensures forall i :: 0 <= i < |Buscar(s, f)| && Buscar(s, f)[i].esActual ==> Buscar(s, f)[0].esActual
  {
    var r := Buscar(s, f);
    VaAntesEsOrden();
    OrdenarOrdena(Filtrar(s, f), VaAntes);
    assert multiset(r) == multiset(Filtrar(s, f));
    forall g ensures g in r <==> g in Filtrar(s, f) {
      assert g in r <==> g in multiset(r);
    }
    forall i | 0 < i < |r| && r[i].esActual ensures r[0].esActual {
      assert VaAntes(r[0], r[i]);
    }
  }

  /**
   * The `gestiones` table and the service's operations on it. `docentes` and
   * `programas` stand for the `gestion_id` column of those tables, which
   * tienesDatosAsociados consults.
   */
  class ServicioGestiones {
    var gestiones: seq<Gestion>
    var proximoId: nat
    var docentes: seq<nat>
    var programas: seq<nat>

    ghost predicate Valid()
      reads this
    {
      IdsUnicos(gestiones) && forall i :: 0 <= i < |gestiones| ==> gestiones[i].id < proximoId
    }

    constructor(docentes: seq<nat>, programas: seq<nat>)
      ensures Valid() && gestiones == [] && this.docentes == docentes && this.programas == programas
    {
      gestiones := [];
      proximoId := 1;
      this.docentes := docentes;
      this.programas := programas;
    }

    method DesactivarTodasLasGestiones()
      requires Valid()
      modifies this
      ensures Valid()
      ensures gestiones == DesactivarTodas(old(gestiones))
      ensures proximoId == old(proximoId) && docentes == old(docentes) && programas == old(programas)
    {
      var i := 0;
      while i < |gestiones|
        invariant 0 <= i <= |gestiones| == |old(gestiones)|
        invariant forall k :: 0 <= k < i ==> gestiones[k] == old(gestiones)[k].(esActual := false)
        invariant forall k :: i <= k < |gestiones| ==> gestiones[k] == old(gestiones)[k]
        invariant proximoId == old(proximoId) && docentes == old(docentes) && programas == old(programas)
      {
        if gestiones[i].esActual {
          gestiones := gestiones[i := gestiones[i].(esActual := false)];
        }
        i := i + 1;
      }
      assert gestiones == DesactivarTodas(old(gestiones));
    }

    method DesactivarTodasLasGestionesExcepto(excluir: nat)
      requires Valid()
      modifies this
      ensures Valid()
      ensures gestiones == DesactivarExcepto(old(gestiones), excluir)
      ensures proximoId == old(proximoId) && docentes == old(docentes) && programas == old(programas)
    {
      var i := 0;
      while i < |gestiones|
        invariant 0 <= i <= |gestiones| == |old(gestiones)|
        invariant forall k :: 0 <= k < i ==> gestiones[k] == DesactivarExcepto(old(gestiones), excluir)[k]
        invariant forall k :: i <= k < |gestiones| ==> gestiones[k] == old(gestiones)[k]
        invariant proximoId == old(proximoId) && docentes == old(docentes) && programas == old(programas)
      {
        if gestiones[i].esActual && gestiones[i].id != excluir {
          gestiones := gestiones[i := gestiones[i].(esActual := false)];
        }
        i := i + 1;
      }
      assert gestiones == DesactivarExcepto(old(gestiones), excluir);
    }

    /** Where the row `id` is. */
    method Posicion(id: nat) returns (k: nat)
      requires Existe(gestiones, id)
      ensures k < |gestiones| && gestiones[k].id == id
    {
      k := 0;
      while gestiones[k].id != id
        invariant k < |gestiones|
        invariant forall m :: 0 <= m < k ==> gestiones[m].id != id
        decreases |gestiones| - k
      {
        k := k + 1;
      }
    }

    method CrearGestion(d: Datos) returns (g: Gestion)
      requires Valid()
      modifies this
      ensures Valid()
      ensures g == Nueva(old(proximoId), d)
      ensures gestiones == Crear(old(gestiones), old(proximoId), d)
      ensures proximoId == old(proximoId) + 1 && docentes == old(docentes) && programas == old(programas)
    {
      if MarcaActual(d.esActual) {
        DesactivarTodasLasGestiones();
      }
      g := Nueva(proximoId, d);
      gestiones := gestiones + [g];
      proximoId := proximoId + 1;
    }

    method ActualizarGestion(id: nat, c: Cambios) returns (g: Gestion)
      requires Valid() && Existe(gestiones, id)
      modifies this
      ensures Valid()
      ensures gestiones == Actualizar(old(gestiones), id, c)
      ensures g in gestiones && g.id == id
      ensures proximoId == old(proximoId) && docentes == old(docentes) && programas == old(programas)
    {
      if MarcaActual(c.esActual) {
        DesactivarTodasLasGestionesExcepto(id);
      }
      ghost var base := gestiones;
      var k := Posicion(id);
      g := Aplicar(gestiones[k], c);
      gestiones := gestiones[k := g];
      assert gestiones == Reemplazar(base, id, c);
    }

    /** activarGestion, with the current term written whatever the loaded model held. */
    method ActivarGestion(id: nat) returns (g: Gestion)
      requires Valid() && Existe(gestiones, id)
      modifies this
      ensures Valid()
      ensures gestiones == Activar(old(gestiones), id)
      ensures g in gestiones && g.id == id && g.esActual && g.estado == Activo
      ensures proximoId == old(proximoId) && docentes == old(docentes) && programas == old(programas)
    {
      DesactivarTodasLasGestiones();
      var k := Posicion(id);
      g := gestiones[k].(esActual := true, estado := Activo);
      gestiones := gestiones[k := g];
      assert gestiones == Activar(old(gestiones), id);
    }

    predicate TieneDatosAsociados(id: nat)
      reads this
    {
      TieneDatos(docentes, programas, id)
    }

    /** eliminarGestion: refuses the current term and a term with data; otherwise deletes that row. */
    method EliminarGestion(id: nat) returns (r: Result<bool>)
      requires Valid() && Existe(gestiones, id)
      modifies this
      ensures Valid()
      ensures r.Success? <==>
        exists i :: 0 <= i < |old(gestiones)| && old(gestiones)[i].id == id && Eliminable(old(gestiones)[i], docentes, programas)
      ensures r.Success? ==> r.value && gestiones == Eliminar(old(gestiones), id)
      ensures r.Failure? ==> gestiones == old(gestiones)
      ensures forall i :: 0 <= i < |old(gestiones)| && old(gestiones)[i].id == id ==>
        && (r == Failure(ErrorActual) <==> old(gestiones)[i].esActual)
        && (r == Failure(ErrorDatos) <==> !old(gestiones)[i].esActual && TieneDatos(docentes, programas, id))
      ensures proximoId == old(proximoId) && docentes == old(docentes) && programas == old(programas)
    {
      var k := Posicion(id);
      assert forall i :: 0 <= i < |gestiones| && gestiones[i].id == id ==> i == k;
      if gestiones[k].esActual {
        r := Failure(ErrorActual);
      } else if TieneDatosAsociados(id) {
        r := Failure(ErrorDatos);
      } else {
        EliminarConservaIds(gestiones, id);
        gestiones := Eliminar(gestiones, id);
        r := Success(true);
      }
    }

    /** puedeEliminar: one reason per failed condition, the current-term reason first. */
    method PuedeEliminar(g: Gestion) returns (puede: bool, razones: seq<string>)
      ensures puede <==> Eliminable(g, docentes, programas)
      ensures puede <==> razones == []
      ensures RazonActual in razones <==> g.esActual
      ensures RazonDatos in razones <==> TieneDatosAsociados(g.id)
      ensures g.esActual && TieneDatosAsociados(g.id) ==> razones == [RazonActual, RazonDatos]
    {
      puede := true;
      razones := [];
      if g.esActual {
        puede := false;
        razones := razones + [RazonActual];
      }
      if TieneDatosAsociados(g.id) {
        puede := false;
        razones := razones + [RazonDatos];
      }
    }

    method ObtenerGestionActual() returns (r: Option<Gestion>)
      ensures r == Actual(gestiones)
    {
      var i := 0;
      while i < |gestiones| && !gestiones[i].esActual
        invariant 0 <= i <= |gestiones|
        invariant Actual(gestiones) == Actual(gestiones[i..])
      {
        assert gestiones[i..][1..] == gestiones[i + 1..];
        i := i + 1;
      }
      if i < |gestiones| {
        r := Some(gestiones[i]);
      } else {
        r := None;
      }
    }
  }
}
