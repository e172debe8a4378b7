/**
 * Laravel's validation rules as predicates on one field. A field is `None`
 * when its key is absent or null. Rules other than `required` pass on an
 * absent, null or blank field, the way Laravel skips them there.
 */
module Reglas {
  import opened Wrappers
  import opened Texto
  import opened Fechas
  import opened LecturaFechas

  /** `required`: present and not blank. */
  predicate Requerido(o: Option<string>) {
    o.Some? && Recortar(o.value) != []
  }

  /** Absent, null or blank: a field that rules other than `required` leave alone. */
  predicate Ausente(o: Option<string>) {
    o.None? || Recortar(o.value) == []
  }

  /** PHP's truthiness of a nullable string: present, and neither "" nor "0". */
  predicate Veraz(o: Option<string>) {
    o.Some? && !VacioPhp(o.value)
  }

  /** `max:n` on a text: at most `n` characters. */
  predicate MaxLargo(o: Option<string>, n: nat) {
    Ausente(o) || |o.value| <= n
  }

  /** `in:a,b,...`. */
  predicate EnLista(o: Option<string>, opciones: seq<string>) {
    Ausente(o) || o.value in opciones
  }

  /** `exists:tabla,id`: a given id names a row of the table. */
  predicate ExisteId(o: Option<nat>, ids: seq<nat>) {
    o.None? || o.value in ids
  }

  /**
   * `unique:tabla,columna`, optionally with `ignore($id)`: no other row of
   * the column, given as (id, value) pairs, holds the same value.
   */
  predicate Unico(o: Option<string>, columna: seq<(nat, string)>, ignorar: Option<nat>) {
    Ausente(o) || forall i :: 0 <= i < |columna| && Some(columna[i].0) != ignorar ==> columna[i].1 != o.value
  }

  /**
   * `date`: strtotime reads a date from the text and checkdate accepts it
   * (a real day of a year from 1). Of strtotime's forms the model reads the
   * all-numeric ones: year, month and day with dashes or slashes, the
   * American month/day/year with slashes, and day, month and year with
   * dashes, dots or a tab.
   */
  function LeerFecha(s: string): (r: Option<Fecha>)
    ensures r.Some? ==> Valida(r.value) && 1 <= r.value.anio < 10000
  {
    match Trocear(s)
    case None => None
    case Some(t) =>
      match OrdenDe(t)
      case None => None
      case Some(o) =>
        var f := EnOrden(t, o);
        if Valida(f) && 1 <= f.anio then
          LeerNatCota(t.t3);
          LeerNatCota(t.t1);
          assert Potencia10(4) == 10000;
          Some(f)
        else None
  }

  /** A text the rule accepts is three runs of digits in one of the orders, and the date is read in that order. */
  lemma LeerFechaDe(s: string)
    requires LeerFecha(s).Some?
    ensures Trocear(s).Some? && OrdenDe(Trocear(s).value).Some?
    ensures LeerFecha(s).value == EnOrden(Trocear(s).value, OrdenDe(Trocear(s).value).value)
  {
  }

  /** A year from 1 to 9999 is written with four digits that read back as the year. */
  lemma AnioCuatroDigitos(anio: int)
    requires 1 <= anio < 10000
    ensures |CuatroDigitos(anio)| == 4 && SoloDigitos(CuatroDigitos(anio)) && LeerNat(CuatroDigitos(anio)) == anio
  {
  }

  /** The 'Y-m-d' text of every date of years 1 to 9999 reads as that date. */
  lemma LeerFechaTexto(f: Fecha)
    requires Valida(f) && 1 <= f.anio < 10000
    ensures LeerFecha(FormatoYmd(f)) == Some(f)
  {
    AnioCuatroDigitos(f.anio);
    var t := Trozos(CuatroDigitos(f.anio), '-', DosDigitos(f.mes), '-', DosDigitos(f.dia));
    assert FormatoYmd(f) == Unir(t);
    TrocearUnir(t);
  }

  /** The 'd-m-Y' text of every date of years 1 to 9999 reads as that date. */
  lemma LeerFechaGuiones(f: Fecha)
    requires Valida(f) && 1 <= f.anio < 10000
    ensures LeerFecha(Unir(Trozos(DosDigitos(f.dia), '-', DosDigitos(f.mes), '-', CuatroDigitos(f.anio)))) == Some(f)
  {
    AnioCuatroDigitos(f.anio);
    TrocearUnir(Trozos(DosDigitos(f.dia), '-', DosDigitos(f.mes), '-', CuatroDigitos(f.anio)));
  }

  /**
   * The 'd/m/Y' text the reports print is read month first: its day is
   * taken for the month, so a day after the 12th is refused.
   */
  lemma LeerFechaDmy(f: Fecha)
    requires Valida(f) && 1 <= f.anio < 10000
    ensures LeerFecha(FormatoDmy(f)) == if f.dia <= 12 then Some(Fecha(f.anio, f.dia, f.mes)) else None
  {
    AnioCuatroDigitos(f.anio);
    var t := Trozos(DosDigitos(f.dia), '/', DosDigitos(f.mes), '/', CuatroDigitos(f.anio));
    assert FormatoDmy(f) == Unir(t);
    TrocearUnir(t);
  }

  function FechaDe(o: Option<string>): Option<Fecha> {
    if o.Some? then LeerFecha(o.value) else None
  }

  /** `date`. */
  predicate EsFecha(o: Option<string>) {
    Ausente(o) || LeerFecha(o.value).Some?
  }

  /** A decimal number: `mantisa` / 10^`escala`. */
  datatype Decimal = Decimal(mantisa: int, escala: nat)

  /** Where the first '.' of `s` is, or |s|. */
  function PosicionPunto(s: string): (i: nat)
    ensures i <= |s|
  {
    if s == [] || s[0] == '.' then 0 else PosicionPunto(s[1..]) + 1
  }

  /** The value of the digits before and after the point, scaled to a whole number. */
  function ValorPartes(entero: string, fraccion: string): nat
    requires SoloDigitos(entero) && SoloDigitos(fraccion)
  {
    LeerNat(entero) * Potencia10(|fraccion|) + LeerNat(fraccion)
  }

  /** Digits with at most one '.', and at least one digit. */
  function LeerSinSigno(s: string): (r: Option<Decimal>)
    ensures r.Some? ==> r.value.mantisa >= 0
  {
    var i := PosicionPunto(s);
    var entero := s[..i];
    var fraccion := if i < |s| then s[i + 1..] else "";
    if SoloDigitos(entero) && SoloDigitos(fraccion) && |entero| + |fraccion| > 0 then
      Some(Decimal(ValorPartes(entero, fraccion), |fraccion|))
    else None
  }

  /** `numeric` (is_numeric) on plain decimals: an optional sign, then digits with at most one '.'. */
  function LeerDecimal(s: string): Option<Decimal> {
    if s != [] && (s[0] == '-' || s[0] == '+') then
      match LeerSinSigno(s[1..])
      case Some(d) => Some(if s[0] == '-' then Decimal(-d.mantisa, d.escala) else d)
      case None => None
    else LeerSinSigno(s)
  }

  /** The first '.' comes after every position up to `k` that holds no '.'. */
  lemma {:induction false} SinPuntoAntes(s: string, k: nat)
    requires k < |s| && forall j :: 0 <= j <= k ==> s[j] != '.'
    ensures PosicionPunto(s) > k
    decreases k
  {
    if k > 0 {
      SinPuntoAntes(s[1..], k - 1);
    }
  }

  /** Digits, then a character that is neither a digit nor a '.': not a number. */
  lemma NoNumericoTrasDigitos(s: string, k: nat)
    requires 0 < k < |s| && SoloDigitos(s[..k]) && !EsDigito(s[k]) && s[k] != '.'
    ensures LeerDecimal(s).None?
  {
    assert EsDigito(s[..k][0]);
    SinPuntoAntes(s, k);
    var i := PosicionPunto(s);
    assert s[..i][k] == s[k];
  }

  /** Digits, a '.', then text that is not all digits: not a number. */
  lemma NoNumericoTrasPunto(a: string, b: string)
    requires a != [] && SoloDigitos(a) && !SoloDigitos(b)
    ensures LeerDecimal(a + "." + b).None?
  {
    var s := a + "." + b;
    assert s[0] == a[0];
    PuntoTras(a, b);
    assert s[|a| + 1..] == b;
  }

  /** `min:0|max:100` on a number. */
  predicate EntreCeroYCien(d: Decimal) {
    0 <= d.mantisa <= 100 * Potencia10(d.escala)
  }

  /** `nullable|numeric|min:0|max:100`, the rule of every grade. */
  predicate EsNota(o: Option<string>) {
    Ausente(o) || (LeerDecimal(o.value).Some? && EntreCeroYCien(LeerDecimal(o.value).value))
  }

  /**
   * The value in hundredths as a DECIMAL(5,2) column keeps it: rounded to two
   * places, half away from zero.
   */
  function Centesimas(d: Decimal): int {
    if d.escala <= 2 then d.mantisa * Potencia10(2 - d.escala)
    else
      var q := Potencia10(d.escala - 2);
      var media := 5 * Potencia10(d.escala - 3);
      if d.mantisa >= 0 then (d.mantisa + media) / q else -((-d.mantisa + media) / q)
  }

  /** The grade a field holds, in hundredths; nothing when it holds no number. */
  function NotaDe(o: Option<string>): Option<int> {
    if o.Some? && LeerDecimal(o.value).Some? then Some(Centesimas(LeerDecimal(o.value).value)) else None
  }

  lemma Monotono(a: int, b: int, q: int)
    requires q >= 0
    ensures a <= b ==> a * q <= b * q
  {
  }

  lemma CocienteAcotado(m: int, q: int, k: int)
    requires 0 <= m < (k + 1) * q && q > 0
    ensures 0 <= m / q <= k
  {
    var r := m / q;
    assert r * q <= m;
    Monotono(k + 1, r, q);
  }

  /** A grade that passes `min:0|max:100` is stored between 0.00 and 100.00. */
  lemma CentesimasEnRango(d: Decimal)
    requires EntreCeroYCien(d)
    ensures 0 <= Centesimas(d) <= 10000
  {
    var e := d.escala;
    if e <= 2 {
      var p := Potencia10(2 - e);
      assert Potencia10(e) * p == 100 by {
        if e == 0 {
        } else if e == 1 {
        } else {
        }
      }
      assert d.mantisa * p <= 100 * Potencia10(e) * p;
    } else {
      var t := Potencia10(e - 3);
      var q := Potencia10(e - 2);
      assert q == 10 * t;
      assert Potencia10(e) == 100 * q by {
        assert Potencia10(e - 1) == 10 * q;
      }
      CocienteAcotado(d.mantisa + 5 * t, q, 10000);
    }
  }

  /** The text of a DECIMAL(…,2) value as Eloquent's `decimal:2` cast gives it, "85.50". */
  function TextoDecimal(n: nat): string {
    MostrarNat(n / 100) + "." + RellenarIzq(MostrarNat(n % 100), 2, '0')
  }

  /** The first '.' after a run of digits is the one that ends the run. */
  lemma {:induction false} PuntoTras(a: string, b: string)
    requires SoloDigitos(a)
    ensures PosicionPunto(a + "." + b) == |a|
  {
    if a != [] {
      PuntoTras(a[1..], b);
      assert (a + "." + b)[1..] == a[1..] + "." + b;
    }
  }

  /** A run of digits, a '.', and more digits reads as one number. */
  lemma PartesDecimal(a: string, b: string)
    requires SoloDigitos(a) && SoloDigitos(b) && a != []
    ensures LeerSinSigno(a + "." + b) == Some(Decimal(ValorPartes(a, b), |b|))
  {
    var t := a + "." + b;
    var i := PosicionPunto(t);
    assert i == |a| by {
      PuntoTras(a, b);
    }
    assert t[..i] == a && t[i + 1..] == b by {
      assert t[..|a|] == a && t[|a| + 1..] == b;
    }
  }

  /** The cast text reads back as the same number of hundredths. */
  lemma LeerTextoDecimal(n: nat)
    ensures LeerDecimal(TextoDecimal(n)) == Some(Decimal(n, 2))
    ensures Centesimas(Decimal(n, 2)) == n
  {
    var a := MostrarNat(n / 100);
    var b := RellenarIzq(MostrarNat(n % 100), 2, '0');
    assert |MostrarNat(n % 100)| <= 2;
    LeerRelleno(n % 100, 2);
    LeerMostrar(n / 100);
    PartesDecimal(a, b);
    assert Potencia10(2) == 100;
    assert ValorPartes(a, b) == n;
    assert TextoDecimal(n)[0] == a[0];
  }
}
