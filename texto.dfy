/**
 * The string operations of PHP that the application relies on, on ASCII text:
 * integer interpolation ("{$n}"), str_pad with STR_PAD_LEFT, strtolower,
 * strtoupper and trim, plus reading a run of decimal digits back as a number.
 */
module Texto {

  predicate EsDigito(c: char) { '0' <= c <= '9' }

  function ValorDigito(c: char): (v: nat)
    requires EsDigito(c)
    ensures v < 10
  {
    (c as int) - ('0' as int)
  }

  function Digito(n: nat): (c: char)
    requires n < 10
    ensures EsDigito(c) && ValorDigito(c) == n
  {
    (('0' as int) + n) as char
  }

  predicate SoloDigitos(s: string) {
    forall i :: 0 <= i < |s| ==> EsDigito(s[i])
  }

  /** The decimal text of a non-negative integer, as PHP interpolates it: no sign, no leading zeros. */
  function MostrarNat(n: nat): (s: string)
    ensures 1 <= |s| && SoloDigitos(s)
    ensures s[0] == '0' <==> n == 0
  {
    if n < 10 then [Digito(n)] else MostrarNat(n / 10) + [Digito(n % 10)]
  }

  /** The value of a run of decimal digits (the empty run reads as 0). */
  function LeerNat(s: string): nat
    requires SoloDigitos(s)
  {
    if s == [] then 0 else LeerNat(s[..|s| - 1]) * 10 + ValorDigito(s[|s| - 1])
  }

  /** Reading back the text of `n` gives `n`. */
  lemma {:induction false} LeerMostrar(n: nat)
    ensures LeerNat(MostrarNat(n)) == n
  {
    var s := MostrarNat(n);
    if n >= 10 {
      LeerMostrar(n / 10);
      assert s[..|s| - 1] == MostrarNat(n / 10);
    }
  }

  /** Two numbers with the same text are the same number. */
  lemma MostrarInyectiva(a: nat, b: nat)
    requires MostrarNat(a) == MostrarNat(b)
    ensures a == b
  {
    LeerMostrar(a);
    LeerMostrar(b);
  }

  function Repetir(k: nat, c: char): (r: string)
    ensures |r| == k && forall i :: 0 <= i < k ==> r[i] == c
  {
    seq(k, _ => c)
  }

  /** Leading zeros do not change the value of a run of digits. */
  lemma {:induction false} LeerConCeros(k: nat, s: string)
    requires SoloDigitos(s)
    ensures SoloDigitos(Repetir(k, '0') + s)
    ensures LeerNat(Repetir(k, '0') + s) == LeerNat(s)
  {
    var t := Repetir(k, '0') + s;
    if s == [] {
      assert t == Repetir(k, '0');
      SoloCeros(k);
    } else {
      var u := s[..|s| - 1];
      LeerConCeros(k, u);
      assert t[..|t| - 1] == Repetir(k, '0') + u;
    }
  }

  lemma {:induction false} SoloCeros(k: nat)
    ensures SoloDigitos(Repetir(k, '0')) && LeerNat(Repetir(k, '0')) == 0
  {
    if k > 0 {
      SoloCeros(k - 1);
      assert Repetir(k, '0')[..k - 1] == Repetir(k - 1, '0');
    }
  }

  /** str_pad($s, $ancho, $c, STR_PAD_LEFT): a text already as wide as `ancho` is unchanged. */
  function RellenarIzq(s: string, ancho: nat, c: char): (r: string)
    ensures |r| == if |s| >= ancho then |s| else ancho
    ensures r[|r| - |s|..] == s
    ensures forall i :: 0 <= i < |r| - |s| ==> r[i] == c
  {
    if |s| >= ancho then s else Repetir(ancho - |s|, c) + s
  }

  /** Padding the text of a number with zeros keeps its value, so padded numbers read back. */
  lemma LeerRelleno(n: nat, ancho: nat)
    ensures SoloDigitos(RellenarIzq(MostrarNat(n), ancho, '0'))
    ensures LeerNat(RellenarIzq(MostrarNat(n), ancho, '0')) == n
  {
    var s := MostrarNat(n);
    LeerMostrar(n);
    if |s| < ancho {
      LeerConCeros(ancho - |s|, s);
    }
  }

  /** Zero-padded numbers are distinct whenever the numbers are. */
  lemma RellenoInyectivo(a: nat, b: nat, ancho: nat)
    requires RellenarIzq(MostrarNat(a), ancho, '0') == RellenarIzq(MostrarNat(b), ancho, '0')
    ensures a == b
  {
    LeerRelleno(a, ancho);
    LeerRelleno(b, ancho);
  }

  function Potencia10(k: nat): (r: nat)
    ensures r >= 1
  {
    if k == 0 then 1 else 10 * Potencia10(k - 1)
  }

  /** strtolower on one character (ASCII only, as PHP 8 does). */
  function Minuscula(c: char): (r: char)
    ensures 'A' <= c <= 'Z' ==> 'a' <= r <= 'z'
    ensures !('A' <= c <= 'Z') ==> r == c
  {
    if 'A' <= c <= 'Z' then (c as int + 32) as char else c
  }

  /** strtoupper on one character (ASCII only). */
  function Mayuscula(c: char): (r: char)
    ensures 'a' <= c <= 'z' ==> 'A' <= r <= 'Z'
    ensures !('a' <= c <= 'z') ==> r == c
  {
    if 'a' <= c <= 'z' then (c as int - 32) as char else c
  }

  function Minusculas(s: string): (r: string)
    ensures |r| == |s| && forall i :: 0 <= i < |s| ==> r[i] == Minuscula(s[i])
  {
    seq(|s|, i requires 0 <= i < |s| => Minuscula(s[i]))
  }

  /** The characters trim() strips by default: space, tab, newline, carriage return, NUL, vertical tab. */
  predicate EsBlanco(c: char) {
    c == ' ' || c == '\t' || c == '\n' || c == '\r' || c == '\0' || c == '\U{B}'
  }

  predicate TodoBlanco(s: string) {
    forall i :: 0 <= i < |s| ==> EsBlanco(s[i])
  }

  /** How many blanks `s` starts with. */
  function Inicio(s: string): (i: nat)
    ensures i <= |s| && TodoBlanco(s[..i])
    ensures i == |s| || !EsBlanco(s[i])
  {
    if |s| > 0 && EsBlanco(s[0]) then
      var k := Inicio(s[1..]);
      assert s[..k + 1] == [s[0]] + s[1..][..k];
      1 + k
    else 0
  }

  /** Where the run of blanks that `s` ends with begins. */
  function Fin(s: string): (j: nat)
    ensures j <= |s| && TodoBlanco(s[j..])
    ensures j == 0 || !EsBlanco(s[j - 1])
  {
    if |s| > 0 && EsBlanco(s[|s| - 1]) then
      var p := s[..|s| - 1];
      var k := Fin(p);
      assert s[k..] == p[k..] + [s[|s| - 1]];
      k
    else |s|
  }

  /**
   * trim(): the longest middle part of `s` that neither starts nor ends with a
   * blank; everything cut off on either side is blank.
   */
  function Recortar(s: string): (r: string)
    ensures exists i, j :: 0 <= i <= j <= |s| && TodoBlanco(s[..i]) && TodoBlanco(s[j..]) && r == s[i..j]
    ensures r == [] || (!EsBlanco(r[0]) && !EsBlanco(r[|r| - 1]))
  {
    var i := Inicio(s);
    if i == |s| then
      assert TodoBlanco(s[|s|..]) && s[i..i] == [];
      []
    else
      var j := Fin(s);
      assert i < j;
      s[i..j]
  }

  /** trim() is idempotent: a trimmed text has nothing left to strip. */
  lemma RecortarIdempotente(s: string)
    ensures Recortar(Recortar(s)) == Recortar(s)
  {
    var r := Recortar(s);
    assert Inicio(r) == 0;
    if r != [] {
      assert Fin(r) == |r|;
      assert r[0..|r|] == r;
    }
  }

  predicate EmpiezaCon(s: string, prefijo: string) {
    |prefijo| <= |s| && s[..|prefijo|] == prefijo
  }

  /** `t` occurs somewhere in `s` (a LIKE '%t%' pattern without wildcards in `t`). */
  predicate Contiene(s: string, t: string)
    decreases |s|
  {
    EmpiezaCon(s, t) || (s != [] && Contiene(s[1..], t))
  }

  /** PHP's empty() on a string: the empty string and "0". */
  predicate VacioPhp(s: string) {
    s == "" || s == "0"
  }

  /**
   * PHP's `<` on two non-numeric strings: byte-wise comparison, and a proper
   * prefix is smaller than the longer text.
   */
  predicate MenorTexto(a: string, b: string)
    decreases |a|
  {
    if a == [] then b != []
    else if b == [] then false
    else if a[0] != b[0] then a[0] < b[0]
    else MenorTexto(a[1..], b[1..])
  }

  /** A proper prefix compares smaller: "2024-06-30" < "2024-06-30 00:00:00". */
  lemma {:induction false} PrefijoEsMenor(a: string, resto: string)
    requires resto != []
    ensures MenorTexto(a, a + resto)
  {
    if a != [] {
      assert (a + resto)[1..] == a[1..] + resto;
      PrefijoEsMenor(a[1..], resto);
    }
  }

  /** No text is smaller than itself. */
  lemma {:induction false} MenorTextoIrreflexivo(a: string)
    ensures !MenorTexto(a, a)
  {
    if a != [] {
      MenorTextoIrreflexivo(a[1..]);
    }
  }

  /** Two different texts are ordered one way or the other, never both. */
  lemma {:induction false} MenorTextoTotal(a: string, b: string)
    ensures a != b <==> MenorTexto(a, b) || MenorTexto(b, a)
    ensures !(MenorTexto(a, b) && MenorTexto(b, a))
    decreases |a|
  {
    if a != [] && b != [] && a[0] == b[0] {
      MenorTextoTotal(a[1..], b[1..]);
      assert a == [a[0]] + a[1..] && b == [b[0]] + b[1..];
    } else if a == b {
      MenorTextoIrreflexivo(a);
    }
  }

  lemma {:induction false} MenorTextoTransitivo(a: string, b: string, c: string)
    requires MenorTexto(a, b) && MenorTexto(b, c)
    ensures MenorTexto(a, c)
    decreases |a|
  {
    if a != [] && a[0] == b[0] && b[0] == c[0] {
      MenorTextoTransitivo(a[1..], b[1..], c[1..]);
    }
  }
}
