/**
 * Calendar dates as PHP's DateTime handles them: the proleptic Gregorian
 * calendar, overflowing fields carried into the next unit, and the 'Y-m-d'
 * and 'd/m/Y' output formats.
 */
module Fechas {
  import opened Wrappers
  import opened Texto

  datatype Fecha = Fecha(anio: int, mes: int, dia: int)

  predicate Bisiesto(anio: int) {
    (anio % 4 == 0 && anio % 100 != 0) || anio % 400 == 0
  }

  function DiasDelMes(anio: int, mes: int): (n: int)
    requires 1 <= mes <= 12
    ensures 28 <= n <= 31
    ensures n == 29 <==> mes == 2 && Bisiesto(anio)
  {
    if mes == 2 then (if Bisiesto(anio) then 29 else 28)
    else if mes == 4 || mes == 6 || mes == 9 || mes == 11 then 30
    else 31
  }

  /** A date that exists on the calendar. */
  predicate Valida(f: Fecha) {
    1 <= f.mes <= 12 && 1 <= f.dia <= DiasDelMes(f.anio, f.mes)
  }

  /**
   * A number that orders valid dates the way the calendar does. It is not a
   * day count: only comparisons between two ordinals mean anything.
   */
  function Ordinal(f: Fecha): int {
    f.anio * 416 + f.mes * 32 + f.dia
  }

  predicate Antes(a: Fecha, b: Fecha) { Ordinal(a) < Ordinal(b) }

  predicate AntesOIgual(a: Fecha, b: Fecha) { Ordinal(a) <= Ordinal(b) }

  /** On valid dates the ordinal order is the order by year, then month, then day. */
  lemma AntesEsLexicografico(a: Fecha, b: Fecha)
    requires Valida(a) && Valida(b)
    ensures Antes(a, b) <==>
      a.anio < b.anio || (a.anio == b.anio && (a.mes < b.mes || (a.mes == b.mes && a.dia < b.dia)))
  {
    var ra := a.mes * 32 + a.dia;
    var rb := b.mes * 32 + b.dia;
    assert 33 <= ra < 416 && 33 <= rb < 416;
    if a.anio < b.anio {
      assert a.anio * 416 + 416 <= b.anio * 416;
    } else if a.anio > b.anio {
      assert b.anio * 416 + 416 <= a.anio * 416;
    } else if a.mes != b.mes {
      assert a.mes < b.mes <==> ra < rb;
    }
  }

  /** Two valid dates with the same ordinal are the same date. */
  lemma OrdinalInyectivo(a: Fecha, b: Fecha)
    requires Valida(a) && Valida(b) && Ordinal(a) == Ordinal(b)
    ensures a == b
  {
    AntesEsLexicografico(a, b);
    AntesEsLexicografico(b, a);
  }

  function MesAnterior(anio: int, mes: int): (r: (int, int))
    requires 1 <= mes <= 12
    ensures 1 <= r.1 <= 12
  {
    if mes == 1 then (anio - 1, 12) else (anio, mes - 1)
  }

  function MesSiguiente(anio: int, mes: int): (r: (int, int))
    requires 1 <= mes <= 12
    ensures 1 <= r.1 <= 12
  {
    if mes == 12 then (anio + 1, 1) else (anio, mes + 1)
  }

  /** Carries a day number outside the month into the months before or after it. */
  function AjustarDia(anio: int, mes: int, dia: int): (f: Fecha)
    requires 1 <= mes <= 12
    ensures Valida(f)
    ensures 1 <= dia <= DiasDelMes(anio, mes) ==> f == Fecha(anio, mes, dia)
    decreases (if dia < 1 then 1 - dia else 0), (if dia < 1 then 0 else dia)
  {
    if dia < 1 then
      var (a, m) := MesAnterior(anio, mes);
      AjustarDia(a, m, dia + DiasDelMes(a, m))
    else if dia > DiasDelMes(anio, mes) then
      var (a, m) := MesSiguiente(anio, mes);
      AjustarDia(a, m, dia - DiasDelMes(anio, mes))
    else
      Fecha(anio, mes, dia)
  }

  /**
   * The date PHP builds from raw year, month and day fields: month 0 is the
   * December before, month 13 the January after, day 0 the last day of the
   * month before, 31 February a day in March.
   */
  function Normalizar(anio: int, mes: int, dia: int): (f: Fecha)
    ensures Valida(f)
    ensures Valida(Fecha(anio, mes, dia)) ==> f == Fecha(anio, mes, dia)
  {
    var total := anio * 12 + (mes - 1);
    AjustarDia(total / 12, total % 12 + 1, dia)
  }

  /**
   * Carbon's addYears / subYears (with overflow, its default): the same month
   * and day, except that 29 February becomes 1 March in a common year.
   */
  function SumarAnios(f: Fecha, n: int): (r: Fecha)
    requires Valida(f)
    ensures Valida(r)
    ensures !(f.mes == 2 && f.dia == 29) || Bisiesto(f.anio + n) ==> r == Fecha(f.anio + n, f.mes, f.dia)
    ensures f.mes == 2 && f.dia == 29 && !Bisiesto(f.anio + n) ==> r == Fecha(f.anio + n, 3, 1)
  {
    Normalizar(f.anio + n, f.mes, f.dia)
  }

  /** A two-digit field with a leading zero: 'm' and 'd' (months and days are below 100). */
  function DosDigitos(n: nat): (s: string)
    requires n < 100
    ensures |s| == 2 && SoloDigitos(s) && LeerNat(s) == n
  {
    var s := [Digito(n / 10), Digito(n % 10)];
    assert LeerNat(s[..1]) == n / 10 by { assert s[..1][..0] == []; }
    s
  }

  /** A year of at least four digits, zero padded. */
  function AnioTexto(n: nat): (s: string)
    ensures SoloDigitos(s) && LeerNat(s) == n
    ensures n < 10000 ==> |s| == 4
  {
    if n < 10000 then
      var s := [Digito(n / 1000), Digito(n / 100 % 10), Digito(n / 10 % 10), Digito(n % 10)];
      assert LeerNat(s[..1]) == n / 1000 by { assert s[..1][..0] == []; }
      assert LeerNat(s[..2]) == n / 100 by { assert s[..2][..1] == s[..1]; }
      assert LeerNat(s[..3]) == n / 10 by { assert s[..3][..2] == s[..2]; }
      assert s[..4][..3] == s[..3] && s[..4] == s;
      s
    else
      LeerMostrar(n);
      MostrarNat(n)
  }

  /** The 'Y' field: at least four digits, with '-' before years before year 0. */
  function CuatroDigitos(anio: int): (s: string)
  {
    if anio < 0 then "-" + AnioTexto(-anio) else AnioTexto(anio)
  }

  /** format('Y-m-d'). */
  function FormatoYmd(f: Fecha): (s: string)
    requires Valida(f)
  {
    CuatroDigitos(f.anio) + "-" + DosDigitos(f.mes) + "-" + DosDigitos(f.dia)
  }

  /** format('d/m/Y'), the form the reports print. */
  function FormatoDmy(f: Fecha): (s: string)
    requires Valida(f)
  {
    DosDigitos(f.dia) + "/" + DosDigitos(f.mes) + "/" + CuatroDigitos(f.anio)
  }
}
