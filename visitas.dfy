/**
 * The page-visit counter (TrackPageVisits.php): every web page view is counted
 * per route in the `page_visits` table, and the new count is attached to the
 * request before the request is passed on.
 */
module Visitas {
  import opened Wrappers
  import opened Texto
  import opened Consultas

  /**
   * What the middleware reads of a request: its method, its path (without
   * the leading slash), the name of the matched route if any, whether it is
   * an AJAX call, and the `visitas_pagina` attribute it may set.
   */
  datatype Peticion = Peticion(
    metodo: string,
    ruta: string,
    nombreRuta: Option<string>,
    ajax: bool,
    visitasPagina: Option<nat>)

  /** A GET request that is not an AJAX call and whose path is not under `api/`: only page views are counted. */
  predicate Contable(p: Peticion) {
    Minusculas(p.metodo) == "get" && !EmpiezaCon(p.ruta, "api/") && !p.ajax
  }

  /** `route()?->getName() ?: path()`: the route name unless it is missing or falsy, else the path. */
  function Clave(p: Peticion): (k: string)
    ensures k == p.ruta || p.nombreRuta == Some(k)
    ensures p.nombreRuta.None? ==> k == p.ruta
    ensures p.nombreRuta.Some? && !VacioPhp(p.nombreRuta.value) ==> k == p.nombreRuta.value
    ensures p.nombreRuta.Some? && VacioPhp(p.nombreRuta.value) ==> k == p.ruta
  {
    if p.nombreRuta.Some? && !VacioPhp(p.nombreRuta.value) then p.nombreRuta.value else p.ruta
  }

  /** The `visitas` of a route, zero for a route without a row. */
  function Conteo(visitas: map<string, nat>, k: string): nat {
    if k in visitas then visitas[k] else 0
  }

  /**
   * The table after one request: a counted request inserts its route with
   * one visit or adds one to its row; no other row changes.
   */
  function Registrar(visitas: map<string, nat>, p: Peticion): (r: map<string, nat>)
    ensures Conteo(r, Clave(p)) == Conteo(visitas, Clave(p)) + (if Contable(p) then 1 else 0)
    ensures forall k :: k != Clave(p) ==> Conteo(r, k) == Conteo(visitas, k)
    ensures r.Keys == (if Contable(p) then visitas.Keys + {Clave(p)} else visitas.Keys)
  {
    if Contable(p) then visitas[Clave(p) := Conteo(visitas, Clave(p)) + 1] else visitas
  }

  /** The table after a sequence of requests, in order. */
  function RegistrarTodas(visitas: map<string, nat>, ps: seq<Peticion>): map<string, nat>
    decreases |ps|
  {
    if ps == [] then visitas else Registrar(RegistrarTodas(visitas, ps[..|ps| - 1]), ps[|ps| - 1])
  }

  /** The requests that count towards route `k`. */
  function DeRuta(k: string): Peticion -> bool {
    (p: Peticion) => Contable(p) && Clave(p) == k
  }

  /** After any sequence of requests, a route's count grew by the number of counted requests for it. */
  lemma {:induction false} ConteoAcumulado(visitas: map<string, nat>, ps: seq<Peticion>, k: string)
    ensures Conteo(RegistrarTodas(visitas, ps), k) == Conteo(visitas, k) + Contar(ps, DeRuta(k))
    decreases |ps|
  {
    if ps == [] {
      assert Seleccionar(ps, DeRuta(k)) == [];
    } else {
      var previas := ps[..|ps| - 1];
      var p := ps[|ps| - 1];
      ConteoAcumulado(visitas, previas, k);
      assert ps == previas + [p];
      ContarAgregar(previas, p, DeRuta(k));
    }
  }

  /** The `page_visits` table, keyed by route. */
  class ContadorDeVisitas {
    var visitas: map<string, nat>

    constructor()
      ensures visitas == map[]
    {
      visitas := map[];
    }

    /**
     * The upsert: a new route gets one visit, a known route one more; the
     * other rows are untouched.
     */
    method Upsert(k: string)
      modifies this
      ensures visitas == old(visitas)[k := Conteo(old(visitas), k) + 1]
    {
      if k in visitas {
        visitas := visitas[k := visitas[k] + 1];
      } else {
        visitas := visitas[k := 1];
      }
    }

    /**
     * handle: a counted request updates its route's row and carries the new
     * count as `visitas_pagina`; any other request changes nothing. Either
     * way the request is passed on.
     */
    method Manejar(p: Peticion) returns (siguiente: Peticion)
      modifies this
      ensures visitas == Registrar(old(visitas), p)
      ensures Contable(p) ==> siguiente == p.(visitasPagina := Some(Conteo(old(visitas), Clave(p)) + 1))
      ensures !Contable(p) ==> siguiente == p
    {
      if Contable(p) {
        var clave := Clave(p);
        Upsert(clave);
        var n := visitas[clave];
        siguiente := p.(visitasPagina := Some(n));
      } else {
        siguiente := p;
      }
    }
  }
}
