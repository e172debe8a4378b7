/**
 * The term controller (app/Http/Controllers/GestionController.php): the
 * first-term-becomes-current rule of `store`, the outcomes of `destroy` and
 * `activar`, and the option lists it hands to the forms.
 */
module GestionControlador {
  import opened Wrappers
  import opened Texto
  import opened Gestiones

  function MensajeCreada(nombre: string, esActual: bool): string {
    if esActual then "Gestión académica '" + nombre + "' creada exitosamente y establecida como actual."
    else "Gestión académica '" + nombre + "' creada exitosamente."
  }

  /** The two messages differ, so the message tells whether the new term is the current one. */
  lemma MensajeDiceSiEsActual(nombre: string)
    ensures MensajeCreada(nombre, true) != MensajeCreada(nombre, false)
  {
    var n := |"Gestión académica '" + nombre + "' creada exitosamente"|;
    assert MensajeCreada(nombre, false)[n] == '.';
    assert MensajeCreada(nombre, true)[n] == ' ';
  }

  /**
   * store: with no current term the new one is forced to be current and
   * 'activo'; otherwise the validated input goes through unchanged. Either
   * way the table ends with a current term.
   */
  method Store(servicio: ServicioGestiones, d: Datos) returns (g: Gestion, mensaje: string)
    requires servicio.Valid() && AlMasUnaActual(servicio.gestiones)
    modifies servicio
    ensures servicio.Valid() && AlMasUnaActual(servicio.gestiones)
    ensures Actual(old(servicio.gestiones)).None? ==>
      g == Nueva(old(servicio.proximoId), d.(estado := Some(Activo), esActual := Some(true)))
    ensures Actual(old(servicio.gestiones)).Some? ==> g == Nueva(old(servicio.proximoId), d)
    ensures g in servicio.gestiones && Actual(servicio.gestiones).Some?
    ensures mensaje == MensajeCreada(g.nombre, g.esActual)
  {
    var datos := d;
    var actual := servicio.ObtenerGestionActual();
    if actual.None? {
      datos := datos.(esActual := Some(true), estado := Some(Activo));
    }
    ghost var antes := servicio.gestiones;
    g := servicio.CrearGestion(datos);
    CrearDejaActual(antes, old(servicio.proximoId), datos);
    mensaje := MensajeCreada(g.nombre, g.esActual);
  }

  /** destroy: the service's refusal message, or the success message with the term deleted. */
  method Destroy(servicio: ServicioGestiones, id: nat) returns (exito: bool, mensaje: string)
    requires servicio.Valid() && Existe(servicio.gestiones, id)
    modifies servicio
    ensures servicio.Valid()
    ensures !exito ==> servicio.gestiones == old(servicio.gestiones)
    ensures forall i :: 0 <= i < |old(servicio.gestiones)| && old(servicio.gestiones)[i].id == id ==>
      && (!exito && mensaje == ErrorActual <==> old(servicio.gestiones)[i].esActual)
      && (!exito && mensaje == ErrorDatos <==>
            !old(servicio.gestiones)[i].esActual && TieneDatos(servicio.docentes, servicio.programas, id))
    ensures exito ==> servicio.gestiones == Eliminar(old(servicio.gestiones), id)
    ensures exito <==> exists i :: 0 <= i < |old(servicio.gestiones)| && old(servicio.gestiones)[i].id == id && Eliminable(old(servicio.gestiones)[i], servicio.docentes, servicio.programas)
  {
    var k := servicio.Posicion(id);
    var nombre := servicio.gestiones[k].nombre;
    var r := servicio.EliminarGestion(id);
    if r.Success? {
      exito := true;
      mensaje := "Gestión académica '" + nombre + "' eliminada exitosamente.";
    } else {
      exito := false;
      mensaje := r.error;
    }
  }

  /** activar: the term becomes the only current term. */
  method ActivarGestion(servicio: ServicioGestiones, id: nat) returns (mensaje: string)
    requires servicio.Valid() && Existe(servicio.gestiones, id)
    modifies servicio
    ensures servicio.Valid() && AlMasUnaActual(servicio.gestiones)
    ensures servicio.gestiones == Activar(old(servicio.gestiones), id)
    ensures Actual(servicio.gestiones).Some? && Actual(servicio.gestiones).value.id == id
  {
    var g := servicio.ActivarGestion(id);
    var k := servicio.Posicion(id);
    ActivarDejaSoloEsa(old(servicio.gestiones), id, k);
    mensaje := "Gestión '" + g.nombre + "' activada como período académico actual.";
  }

  /** obtenerEstadosDisponibles: value and label of each state, 'activo' first. */
  function EstadosDisponibles(): (r: seq<(string, string)>)
    ensures |r| == 2 && r[0].0 == NombreEstado(Activo) && r[1].0 == NombreEstado(Inactivo)
    ensures forall e: Estado :: exists i :: 0 <= i < |r| && r[i].0 == NombreEstado(e)
  {
    var r := [("activo", "Activo"), ("inactivo", "Inactivo")];
    assert forall e: Estado :: r[if e == Activo then 0 else 1].0 == NombreEstado(e);
    r
  }

  /** SUBSTRING(nombre, 1, 4). */
  function Anio(nombre: string): (a: string)
    ensures |a| == if |nombre| <= 4 then |nombre| else 4
    ensures EmpiezaCon(nombre, a)
  {
    if |nombre| <= 4 then nombre else nombre[..4]
  }

  /** Strictly decreasing in PHP/SQL string order, hence without repetitions. */
  ghost predicate Descendente(r: seq<string>) {
    forall i, j :: 0 <= i < j < |r| ==> MenorTexto(r[j], r[i])
  }

  /** Adds `x` to a descending list of distinct texts, where it belongs, unless it is already there. */
  function InsertarDesc(x: string, r: seq<string>): (t: seq<string>)
    ensures forall y :: y in t <==> y == x || y in r
  {
    if r == [] then [x]
    else if x == r[0] then r
    else if MenorTexto(r[0], x) then [x] + r
    else [r[0]] + InsertarDesc(x, r[1..])
  }

  lemma {:induction false} InsertarDescOrdena(x: string, r: seq<string>)
    requires Descendente(r)
    ensures Descendente(InsertarDesc(x, r))
  {
    if r != [] && x != r[0] {
      if MenorTexto(r[0], x) {
        forall j | 0 < j < |r| ensures MenorTexto(r[j], x) {
          MenorTextoTransitivo(r[j], r[0], x);
        }
      } else {
        MenorTextoTotal(x, r[0]);
        assert Descendente(r[1..]);
        InsertarDescOrdena(x, r[1..]);
        var t := InsertarDesc(x, r);
        forall j | 0 < j < |t| ensures MenorTexto(t[j], t[0]) {
          assert t[j] in InsertarDesc(x, r[1..]);
        }
      }
    }
  }

  /** The years of the names in `s`, from the last name back; "" and "0" are dropped. */
  function Anios(s: seq<Gestion>): seq<string> {
    if s == [] then []
    else
      var a := Anio(s[|s| - 1].nombre);
      var r := Anios(s[..|s| - 1]);
      if VacioPhp(a) then r else InsertarDesc(a, r)
  }

  /** `b` is a non-empty year of some name in `s`. */
  predicate EsAnioDe(s: seq<Gestion>, b: string) {
    !VacioPhp(b) && exists i :: 0 <= i < |s| && Anio(s[i].nombre) == b
  }

  lemma EsAnioDeUltimo(s: seq<Gestion>, b: string)
    requires s != []
    ensures EsAnioDe(s, b) <==> EsAnioDe(s[..|s| - 1], b) || (!VacioPhp(b) && b == Anio(s[|s| - 1].nombre))
  {
    var p := s[..|s| - 1];
    if EsAnioDe(s, b) {
      var i :| 0 <= i < |s| && Anio(s[i].nombre) == b;
      if i < |p| {
        assert p[i] == s[i];
      }
    }
    if EsAnioDe(p, b) {
      var i :| 0 <= i < |p| && Anio(p[i].nombre) == b;
      assert s[i] == p[i];
    }
  }

  /**
   * obtenerAñosDisponibles: the distinct first four characters of the
   * names, without empty values, in descending order.
   */
  lemma {:induction false} AniosDisponibles(s: seq<Gestion>)
    ensures Descendente(Anios(s))
    ensures forall b :: b in Anios(s) <==> EsAnioDe(s, b)
  {
    if s != [] {
      var p := s[..|s| - 1];
      AniosDisponibles(p);
      var a := Anio(s[|s| - 1].nombre);
      if !VacioPhp(a) {
        InsertarDescOrdena(a, Anios(p));
      }
      forall b ensures b in Anios(s) <==> EsAnioDe(s, b) {
        EsAnioDeUltimo(s, b);
      }
    }
  }
}
