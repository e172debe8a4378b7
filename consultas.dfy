/**
 * Queries over tables held as sequences of rows: Eloquent's `where(...)->get()`,
 * `first()`, `count()` and `where(...)->delete()`.
 */
module Consultas {
  import opened Wrappers

  /** `where(...)->get()`: the rows that satisfy `p`, in table order. */
  function Seleccionar<T>(s: seq<T>, p: T -> bool): (r: seq<T>)
    ensures |r| <= |s|
    ensures forall i :: 0 <= i < |r| ==> r[i] in s && p(r[i])
    ensures forall i :: 0 <= i < |s| && p(s[i]) ==> s[i] in r
    ensures multiset(r) <= multiset(s)
  {
    if s == [] then []
    else
      assert s == [s[0]] + s[1..];
      var resto := Seleccionar(s[1..], p);
      if p(s[0]) then [s[0]] + resto else resto
  }

  /** `where(...)->count()`. */
  function Contar<T>(s: seq<T>, p: T -> bool): nat {
    |Seleccionar(s, p)|
  }

  /** Nothing is counted exactly when no row satisfies `p`. */
  lemma ContarCero<T>(s: seq<T>, p: T -> bool)
    ensures Contar(s, p) == 0 <==> forall i :: 0 <= i < |s| ==> !p(s[i])
  {
    var r := Seleccionar(s, p);
    if r != [] {
      assert r[0] in s;
    }
    if exists i :: 0 <= i < |s| && p(s[i]) {
      var i :| 0 <= i < |s| && p(s[i]);
      assert s[i] in r;
    }
  }

  /** Appending a row adds one to the count when the row satisfies `p`. */
  lemma {:induction false} ContarAgregar<T>(s: seq<T>, x: T, p: T -> bool)
    ensures Contar(s + [x], p) == Contar(s, p) + (if p(x) then 1 else 0)
  {
    if s != [] {
      ContarAgregar(s[1..], x, p);
      assert (s + [x])[1..] == s[1..] + [x];
    } else {
      assert Seleccionar<T>([], p) == [];
    }
  }

  /** Overwriting one row moves the count by what the old and the new row contribute. */
  lemma {:induction false} ContarCambiar<T>(s: seq<T>, k: nat, x: T, p: T -> bool)
    requires k < |s|
    ensures Contar(s[k := x], p) + (if p(s[k]) then 1 else 0) == Contar(s, p) + (if p(x) then 1 else 0)
  {
    ContarCabeza(s, p);
    ContarCabeza(s[k := x], p);
    if k == 0 {
      assert s[k := x][1..] == s[1..];
    } else {
      assert s[k := x][1..] == s[1..][k - 1 := x];
      ContarCambiar(s[1..], k - 1, x, p);
    }
  }

  /** Deleting one row takes away what that row contributed to the count. */
  lemma {:induction false} ContarQuitar<T>(s: seq<T>, k: nat, p: T -> bool)
    requires k < |s|
    ensures Contar(s[..k] + s[k + 1..], p) + (if p(s[k]) then 1 else 0) == Contar(s, p)
  {
    var a, b := s[..k], s[k + 1..];
    assert s == a + ([s[k]] + b);
    ContarConcatenar(a, b, p);
    ContarConcatenar(a, [s[k]] + b, p);
    ContarCabeza([s[k]] + b, p);
    assert ([s[k]] + b)[1..] == b;
  }

  /** SELECT DISTINCT: each value once, where it first occurs. */
  function SinRepetir<T(==,!new)>(s: seq<T>): (r: seq<T>)
    ensures forall x :: x in r <==> x in s
    ensures forall i, j :: 0 <= i < j < |r| ==> r[i] != r[j]
    ensures |r| <= |s|
    decreases |s|
  {
    if s == [] then []
    else
      var previo := SinRepetir(s[..|s| - 1]);
      assert s == s[..|s| - 1] + [s[|s| - 1]];
      if s[|s| - 1] in previo then previo else previo + [s[|s| - 1]]
  }

  /** A non-empty table is its rows but the last, then the last. */
  lemma SinUltimo<T>(s: seq<T>)
    requires s != []
    ensures s[..|s| - 1] + [s[|s| - 1]] == s
  {
  }

  /** Appending in two steps appends the two parts. */
  lemma Asociar<T>(a: seq<T>, b: seq<T>, c: seq<T>)
    ensures a + b + c == a + (b + c)
  {
  }

  /** The count of a non-empty table: its first row, then the rest. */
  lemma ContarCabeza<T>(s: seq<T>, p: T -> bool)
    requires s != []
    ensures Contar(s, p) == (if p(s[0]) then 1 else 0) + Contar(s[1..], p)
  {
  }

  /** A condition implied by another counts at least as many rows. */
  lemma {:induction false} ContarImplica<T>(s: seq<T>, p: T -> bool, q: T -> bool)
    requires forall x :: p(x) ==> q(x)
    ensures Contar(s, p) <= Contar(s, q)
  {
    if s != [] {
      ContarCabeza(s, p);
      ContarCabeza(s, q);
      ContarImplica(s[1..], p, q);
    }
  }

  /** Three conditions that split every row between them split the count of the table. */
  lemma {:induction false} ContarTres<T>(s: seq<T>, p: T -> bool, q: T -> bool, r: T -> bool)
    requires forall x :: (if p(x) then 1 else 0) + (if q(x) then 1 else 0) + (if r(x) then 1 else 0) == 1
    ensures Contar(s, p) + Contar(s, q) + Contar(s, r) == |s|
  {
    if s != [] {
      ContarCabeza(s, p);
      ContarCabeza(s, q);
      ContarCabeza(s, r);
      ContarTres(s[1..], p, q, r);
    }
  }

  /** Two `where` clauses chained: rows that satisfy both. */
  function Y<T>(p: T -> bool, q: T -> bool): T -> bool {
    x => p(x) && q(x)
  }

  /** The negation of a `where` clause. */
  function No<T>(p: T -> bool): T -> bool {
    x => !p(x)
  }

  /** The rows satisfying `p` split into those that also satisfy `q` and those that do not. */
  lemma {:induction false} ContarParte<T>(s: seq<T>, p: T -> bool, q: T -> bool)
    ensures Contar(s, Y(p, q)) + Contar(s, Y(p, No(q))) == Contar(s, p)
  {
    if s != [] {
      ContarCabeza(s, p);
      ContarCabeza(s, Y(p, q));
      ContarCabeza(s, Y(p, No(q)));
      ContarParte(s[1..], p, q);
    }
  }

  /** The count of two tables one after the other is the sum of their counts. */
  lemma {:induction false} ContarConcatenar<T>(a: seq<T>, b: seq<T>, p: T -> bool)
    ensures Contar(a + b, p) == Contar(a, p) + Contar(b, p)
    decreases |b|
  {
    if b == [] {
      assert a + b == a;
      assert Seleccionar(b, p) == [];
    } else {
      var u := b[..|b| - 1];
      var x := b[|b| - 1];
      assert b == u + [x];
      assert a + b == (a + u) + [x];
      ContarConcatenar(a, u, p);
      ContarAgregar(a + u, x, p);
      ContarAgregar(u, x, p);
    }
  }

  /** Counting among the rows a `where` kept is counting with both conditions. */
  lemma {:induction false} ContarSeleccionar<T>(s: seq<T>, p: T -> bool, q: T -> bool)
    ensures Contar(Seleccionar(s, p), q) == Contar(s, Y(p, q))
  {
    if s != [] {
      ContarCabeza(s, Y(p, q));
      ContarSeleccionar(s[1..], p, q);
      var resto := Seleccionar(s[1..], p);
      if p(s[0]) {
        ContarCabeza([s[0]] + resto, q);
        assert ([s[0]] + resto)[1..] == resto;
      }
    } else {
      assert Seleccionar(s, Y(p, q)) == [];
    }
  }

  /** The count does not depend on the order of the rows. */
  lemma {:induction false} ContarPermutacion<T>(a: seq<T>, b: seq<T>, p: T -> bool)
    requires multiset(a) == multiset(b)
    ensures Contar(a, p) == Contar(b, p)
    decreases |a|
  {
    if a == [] {
      assert |b| == |multiset(b)| == 0;
    } else {
      assert a[0] in multiset(b);
      var k :| 0 <= k < |b| && b[k] == a[0];
      var resto := b[..k] + b[k + 1..];
      assert b == b[..k] + [b[k]] + b[k + 1..];
      assert a == [a[0]] + a[1..];
      assert multiset(resto) == multiset(b) - multiset{a[0]};
      assert multiset(a[1..]) == multiset(resto);
      ContarPermutacion(a[1..], resto, p);
      ContarCabeza(a, p);
      ContarQuitar(b, k, p);
    }
  }

  /** The positions of the rows that satisfy `p`, numbered from `primera`, in table order. */
  function Posiciones<T>(s: seq<T>, p: T -> bool, primera: nat): (r: seq<nat>)
    ensures forall i :: 0 <= i < |r| ==> primera <= r[i] < primera + |s|
    ensures forall i :: 0 < i < |r| ==> r[i - 1] < r[i]
    decreases |s|
  {
    if s == [] then []
    else
      var resto := Posiciones(s[..|s| - 1], p, primera);
      resto + (if p(s[|s| - 1]) then [primera + |s| - 1] else [])
  }

  /** Appending a row extends the positions by that row's when it satisfies `p`. */
  lemma PosicionesAgregar<T>(s: seq<T>, x: T, p: T -> bool, primera: nat)
    ensures Posiciones(s + [x], p, primera) == Posiciones(s, p, primera) + (if p(x) then [primera + |s|] else [])
  {
    var t := s + [x];
    assert t[..|t| - 1] == s;
    assert t[|t| - 1] == x;
  }

  /** One position per row that satisfies `p`. */
  lemma {:induction false} PosicionesCuenta<T>(s: seq<T>, p: T -> bool, primera: nat)
    ensures |Posiciones(s, p, primera)| == Contar(s, p)
    decreases |s|
  {
    if s != [] {
      var u := s[..|s| - 1];
      PosicionesCuenta(u, p, primera);
      PosicionesAgregar(u, s[|s| - 1], p, primera);
      ContarAgregar(u, s[|s| - 1], p);
      SinUltimo(s);
    }
  }

  /** A position is listed exactly when the row there satisfies `p`. */
  lemma {:induction false} PosicionesExactas<T>(s: seq<T>, p: T -> bool, primera: nat, k: int)
    ensures k in Posiciones(s, p, primera) <==> 0 <= k - primera < |s| && p(s[k - primera])
    decreases |s|
  {
    if s != [] {
      var u := s[..|s| - 1];
      PosicionesExactas(u, p, primera, k);
      PosicionesAgregar(u, s[|s| - 1], p, primera);
      SinUltimo(s);
      if 0 <= k - primera < |u| {
        assert s[k - primera] == u[k - primera];
      }
    }
  }

  /** The rows of `r` are the rows of `s` at the increasing positions `idx`: `r` keeps the order of `s`. */
  ghost predicate EnPosiciones<T>(r: seq<T>, s: seq<T>, idx: seq<nat>) {
    && |idx| == |r|
    && (forall i :: 0 <= i < |idx| ==> idx[i] < |s| && r[i] == s[idx[i]])
    && forall i, j :: 0 <= i < j < |idx| ==> idx[i] < idx[j]
  }

  /** Appending a row extends the selection by that row when it satisfies `p`. */
  lemma {:induction false} SeleccionarAgregar<T>(s: seq<T>, x: T, p: T -> bool)
    ensures Seleccionar(s + [x], p) == Seleccionar(s, p) + (if p(x) then [x] else [])
  {
    var t := s + [x];
    var extra := if p(x) then [x] else [];
    if s != [] {
      assert t[0] == s[0] && t[1..] == s[1..] + [x];
      SeleccionarAgregar(s[1..], x, p);
      if p(s[0]) {
        assert Seleccionar(t, p) == [s[0]] + Seleccionar(s[1..] + [x], p);
        Asociar([s[0]], Seleccionar(s[1..], p), extra);
      }
    } else {
      assert t[1..] == [];
    }
  }

  /** `where` keeps the table order: it yields the rows at the positions of the rows that satisfy `p`. */
  lemma {:induction false} SeleccionarEnOrden<T>(s: seq<T>, p: T -> bool)
    ensures EnPosiciones(Seleccionar(s, p), s, Posiciones(s, p, 0))
    decreases |s|
  {
    if s != [] {
      var u, x := s[..|s| - 1], s[|s| - 1];
      SeleccionarEnOrden(u, p);
      SinUltimo(s);
      SeleccionarAgregar(u, x, p);
      PosicionesAgregar(u, x, p, 0);
      EnPosicionesAgregar(Seleccionar(u, p), u, Posiciones(u, p, 0), x, p(x));
    }
  }

  /** Appending a row to the table keeps the positions, and appending it to both adds its position. */
  lemma EnPosicionesAgregar<T>(r: seq<T>, s: seq<T>, idx: seq<nat>, x: T, tomar: bool)
    requires EnPosiciones(r, s, idx)
    ensures EnPosiciones(r + (if tomar then [x] else []), s + [x], idx + (if tomar then [|s|] else []))
  {
    var r2, s2, idx2 := r + (if tomar then [x] else []), s + [x], idx + (if tomar then [|s|] else []);
    forall i | 0 <= i < |idx2| ensures idx2[i] < |s2| && r2[i] == s2[idx2[i]] {
      if i < |idx| {
        assert idx2[i] == idx[i] && r2[i] == r[i];
      }
    }
  }

  /** The positions from 0 are exactly those of the rows that satisfy `p`. */
  lemma PosicionesDesdeCero<T>(s: seq<T>, p: T -> bool)
    ensures forall k :: 0 <= k < |s| ==> (k in Posiciones(s, p, 0) <==> p(s[k]))
  {
    forall k | 0 <= k < |s| ensures k in Posiciones(s, p, 0) <==> p(s[k]) {
      PosicionesExactas(s, p, 0, k);
    }
  }

  /** `where(...)->first()`: the first row that satisfies `p`, if any. */
  function Primero<T>(s: seq<T>, p: T -> bool): (r: Option<T>)
    ensures r.None? <==> forall i :: 0 <= i < |s| ==> !p(s[i])
    ensures r.Some? ==> exists i :: 0 <= i < |s| && s[i] == r.value && p(s[i]) && forall j :: 0 <= j < i ==> !p(s[j])
  {
    if s == [] then None
    else if p(s[0]) then Some(s[0])
    else
      var r := Primero(s[1..], p);
      assert forall j :: 1 <= j < |s| ==> s[j] == s[1..][j - 1];
      r
  }

  /** The position of the first row that satisfies `p`, if any. */
  function PrimerIndice<T>(s: seq<T>, p: T -> bool): (r: Option<nat>)
    ensures r.None? <==> forall i :: 0 <= i < |s| ==> !p(s[i])
    ensures r.Some? ==> r.value < |s| && p(s[r.value]) && forall j :: 0 <= j < r.value ==> !p(s[j])
  {
    if s == [] then None
    else if p(s[0]) then Some(0)
    else
      var r := PrimerIndice(s[1..], p);
      assert forall j :: 1 <= j < |s| ==> s[j] == s[1..][j - 1];
      if r.Some? then Some(r.value + 1) else None
  }
}
