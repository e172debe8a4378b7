/**
 * Ordering of query results and collections: SQL ORDER BY and Laravel's
 * sortBy/sortByDesc, as a stable insertion sort under a comparison that says
 * whether one element may come before another.
 */
module Ordenamiento {

  /** Any two elements can be compared. */
  ghost predicate Total<T(!new)>(va: (T, T) -> bool) {
    forall a, b :: va(a, b) || va(b, a)
  }

  ghost predicate Transitiva<T(!new)>(va: (T, T) -> bool) {
    forall a, b, c :: va(a, b) && va(b, c) ==> va(a, c)
  }

  /** Every element may come before every later one. */
  predicate Ordenada<T>(s: seq<T>, va: (T, T) -> bool) {
    forall i, j :: 0 <= i < j < |s| ==> va(s[i], s[j])
  }

  /** Puts `x` in front of the first element it may precede. */
  function Insertar<T>(x: T, s: seq<T>, va: (T, T) -> bool): (t: seq<T>)
    ensures |t| == |s| + 1
    ensures multiset(t) == multiset(s) + multiset{x}
  {
    if s == [] || va(x, s[0]) then [x] + s
    else
      var t := [s[0]] + Insertar(x, s[1..], va);
      assert s == [s[0]] + s[1..];
      t
  }

  /** The elements of `s`, in order; elements that compare equal keep their order. */
  function Ordenar<T>(s: seq<T>, va: (T, T) -> bool): (t: seq<T>)
    ensures |t| == |s|
    ensures multiset(t) == multiset(s)
  {
    if s == [] then []
    else
      assert s == [s[0]] + s[1..];
      Insertar(s[0], Ordenar(s[1..], va), va)
  }

  lemma {:induction false} InsertarOrdenada<T(!new)>(x: T, s: seq<T>, va: (T, T) -> bool)
    requires Total(va) && Transitiva(va) && Ordenada(s, va)
    ensures Ordenada(Insertar(x, s, va), va)
  {
    if s != [] && !va(x, s[0]) {
      InsertarOrdenada(x, s[1..], va);
      var t := Insertar(x, s, va);
      var u := Insertar(x, s[1..], va);
      assert t == [s[0]] + u;
      assert va(s[0], x);
      forall j | 0 < j < |t|
        ensures va(t[0], t[j])
      {
        assert t[j] in multiset(u);
        assert t[j] == x || t[j] in multiset(s[1..]);
        if t[j] != x {
          var k :| 0 <= k < |s[1..]| && s[1..][k] == t[j];
          assert s[1..][k] == s[k + 1];
        }
      }
    }
  }

  /** The result is in order. */
  lemma {:induction false} OrdenarOrdena<T(!new)>(s: seq<T>, va: (T, T) -> bool)
    requires Total(va) && Transitiva(va)
    ensures Ordenada(Ordenar(s, va), va)
  {
    if s != [] {
      OrdenarOrdena(s[1..], va);
      InsertarOrdenada(s[0], Ordenar(s[1..], va), va);
    }
  }

  /** A sequence already in order is left as it is. */
  lemma {:induction false} OrdenarOrdenada<T>(s: seq<T>, va: (T, T) -> bool)
    requires Ordenada(s, va)
    ensures Ordenar(s, va) == s
  {
    if s != [] {
      assert Ordenada(s[1..], va);
      OrdenarOrdenada(s[1..], va);
      assert s == [s[0]] + s[1..];
    }
  }

  /** In a list without repeats every element occurs at most once. */
  lemma {:induction false} UnaVezCadaUno<T>(s: seq<T>, x: T)
    requires forall i, j :: 0 <= i < j < |s| ==> s[i] != s[j]
    ensures multiset(s)[x] <= 1
  {
    if s != [] {
      assert s == [s[0]] + s[1..];
      UnaVezCadaUno(s[1..], x);
      if x == s[0] {
        assert x !in s[1..];
      }
    }
  }

  /** Reordering a list without repeats leaves it without repeats: sorting a DISTINCT result keeps it distinct. */
  lemma SinRepetidosReordenada<T>(a: seq<T>, b: seq<T>)
    requires multiset(a) == multiset(b)
    requires forall i, j :: 0 <= i < j < |a| ==> a[i] != a[j]
    ensures forall i, j :: 0 <= i < j < |b| ==> b[i] != b[j]
  {
    forall i, j | 0 <= i < j < |b|
      ensures b[i] != b[j]
    {
      UnaVezCadaUno(a, b[i]);
      DosPosiciones(b, i, j);
    }
  }

  /** An element occurs at least once where it stands, and once more for each later copy. */
  lemma DosPosiciones<T>(b: seq<T>, i: nat, j: nat)
    requires i < j < |b|
    ensures multiset(b)[b[i]] >= 1 + (if b[i] == b[j] then 1 else 0)
  {
    assert b == b[..j] + [b[j]] + b[j + 1..];
    assert b[..j][i] == b[i];
  }

  /** Collection take($n) and SQL LIMIT: the first `n` elements, or all of them. */
  function Tomar<T>(s: seq<T>, n: nat): (t: seq<T>)
    ensures |t| == if |s| < n then |s| else n
    ensures t <= s
  {
    if |s| <= n then s else s[..n]
  }
}
