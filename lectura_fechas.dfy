/**
 * DateTime::createFromFormat for the four formats the spreadsheet import
 * tries, and what it makes of the dates the application itself prints; and
 * the all-numeric day, month and year texts that strtotime reads.
 */
module LecturaFechas {
  import opened Wrappers
  import opened Texto
  import opened Fechas

  /** One element of a format: a numeric field or a literal separator. */
  datatype Pieza = Anio | Mes | Dia | Literal(c: char)

  /** The fields read so far. */
  datatype Campos = Campos(anio: int, mes: int, dia: int)

  /** Number of leading digits of `s`, at most `max`. */
  function CuantosDigitos(s: string, max: nat): (k: nat)
    ensures k <= max && k <= |s| && SoloDigitos(s[..k])
    ensures k < max && k < |s| ==> !EsDigito(s[k])
  {
    if max == 0 || s == [] || !EsDigito(s[0]) then 0
    else
      var k := CuantosDigitos(s[1..], max - 1);
      assert s[..k + 1] == [s[0]] + s[1..][..k];
      1 + k
  }

  /**
   * Reads a numeric field of at most `max` digits; None when the text does
   * not start with a digit ("Unexpected data found").
   */
  function LeerNumero(s: string, max: nat): (r: Option<(nat, string)>)
    ensures r.Some? ==> |r.value.1| < |s|
    ensures s == [] || !EsDigito(s[0]) ==> r.None?
  {
    var k := CuantosDigitos(s, max);
    if k == 0 then None else Some((LeerNat(s[..k]), s[k..]))
  }

  /** Leading digits are counted up to the field width or the first non-digit. */
  lemma {:induction false} CuantosDigitosDe(t: string, resto: string, max: nat)
    requires SoloDigitos(t) && |t| <= max
    requires |t| == max || resto == [] || !EsDigito(resto[0])
    ensures CuantosDigitos(t + resto, max) == |t|
  {
    if t != [] {
      assert (t + resto)[1..] == t[1..] + resto;
      CuantosDigitosDe(t[1..], resto, max - 1);
    }
  }

  /** A run of digits as long as the field allows, or ended by a non-digit, is read whole. */
  lemma LeerNumeroDe(t: string, resto: string, max: nat)
    requires SoloDigitos(t) && 1 <= |t| <= max
    requires |t| == max || resto == [] || !EsDigito(resto[0])
    ensures LeerNumero(t + resto, max) == Some((LeerNat(t), resto))
  {
    var s := t + resto;
    CuantosDigitosDe(t, resto, max);
    assert s[..|t|] == t && s[|t|..] == resto;
  }

  /** How many digits a numeric field reads at most. */
  function Ancho(p: Pieza): nat {
    if p == Anio then 4 else 2
  }

  /** Stores a value read for a numeric field. */
  function Poner(c: Campos, p: Pieza, n: nat): Campos {
    match p
    case Anio => c.(anio := n)
    case Mes => c.(mes := n)
    case Dia => c.(dia := n)
    case Literal(_) => c
  }

  /** Reads one element of a format: a literal must be the next character, a field must start with a digit. */
  function LeerPieza(p: Pieza, s: string, c: Campos): (r: Option<(Campos, string)>)
    ensures r.Some? ==> |r.value.1| < |s|
  {
    match p
    case Literal(x) => if s != [] && s[0] == x then Some((c, s[1..])) else None
    case _ =>
      match LeerNumero(s, Ancho(p))
      case None => None
      case Some((n, resto)) => Some((Poner(c, p, n), resto))
  }

  /** Reads `s` against a format; None is the `false` that createFromFormat returns. */
  function AplicarFormato(formato: seq<Pieza>, s: string, c: Campos): (r: Option<(Campos, string)>)
    decreases |formato|
  {
    if formato == [] then Some((c, s))
    else
      match LeerPieza(formato[0], s, c)
      case None => None
      case Some((c2, resto)) => AplicarFormato(formato[1..], resto, c2)
  }

  /** Reading a format is reading its first element, then the rest. */
  lemma Paso(p: Pieza, formato: seq<Pieza>, s: string, c: Campos)
    ensures AplicarFormato([p] + formato, s, c) ==
      match LeerPieza(p, s, c)
      case None => None
      case Some((c2, resto)) => AplicarFormato(formato, resto, c2)
  {
    assert ([p] + formato)[1..] == formato;
  }

  /** A literal that is the next character is consumed. */
  lemma PasoLiteral(x: char, formato: seq<Pieza>, resto: string, c: Campos)
    ensures AplicarFormato([Literal(x)] + formato, [x] + resto, c) == AplicarFormato(formato, resto, c)
  {
    Paso(Literal(x), formato, [x] + resto, c);
    assert ([x] + resto)[1..] == resto;
  }

  /** A field whose digits run to its width, or up to a non-digit, is read whole. */
  lemma PasoCampo(p: Pieza, formato: seq<Pieza>, t: string, resto: string, c: Campos)
    requires !p.Literal? && SoloDigitos(t) && 1 <= |t| <= Ancho(p)
    requires |t| == Ancho(p) || resto == [] || !EsDigito(resto[0])
    ensures AplicarFormato([p] + formato, t + resto, c) == AplicarFormato(formato, resto, Poner(c, p, LeerNat(t)))
  {
    Paso(p, formato, t + resto, c);
    LeerNumeroDe(t, resto, Ancho(p));
  }

  /**
   * DateTime::createFromFormat($formato, $s): the fields are read in order,
   * text left over after the format is an error ("Trailing data"), and
   * out-of-range fields are carried over rather than rejected.
   */
  function DesdeFormato(formato: seq<Pieza>, s: string): (r: Option<Fecha>)
    ensures r.Some? ==> Valida(r.value)
  {
    match AplicarFormato(formato, s, Campos(0, 0, 0))
    case None => None
    case Some((c, resto)) => if resto == [] then Some(Normalizar(c.anio, c.mes, c.dia)) else None
  }

  const Ymd: seq<Pieza> := [Anio, Literal('-'), Mes, Literal('-'), Dia]
  const Dmy: seq<Pieza> := [Dia, Literal('/'), Mes, Literal('/'), Anio]
  const DmyGuion: seq<Pieza> := [Dia, Literal('-'), Mes, Literal('-'), Anio]
  const YmdBarra: seq<Pieza> := [Anio, Literal('/'), Mes, Literal('/'), Dia]

  /**
   * A format of three numeric fields joined by two separators reads three
   * runs of digits joined by those separators, each run no longer than its
   * field; what follows the third field is left over.
   */
  lemma AplicarTres(p1: Pieza, p2: Pieza, p3: Pieza, x: char, y: char, t1: string, t2: string, t3: string,
                    resto: string, c: Campos)
    requires !p1.Literal? && !p2.Literal? && !p3.Literal? && !EsDigito(x) && !EsDigito(y)
    requires SoloDigitos(t1) && SoloDigitos(t2) && SoloDigitos(t3)
    requires 1 <= |t1| <= Ancho(p1) && 1 <= |t2| <= Ancho(p2) && 1 <= |t3| <= Ancho(p3)
    requires |t3| == Ancho(p3) || resto == [] || !EsDigito(resto[0])
    ensures AplicarFormato([p1, Literal(x), p2, Literal(y), p3], t1 + ([x] + (t2 + ([y] + (t3 + resto)))), c)
         == Some((Poner(Poner(Poner(c, p1, LeerNat(t1)), p2, LeerNat(t2)), p3, LeerNat(t3)), resto))
  {
    var c1 := Poner(c, p1, LeerNat(t1));
    var s2 := t2 + ([y] + (t3 + resto));
    var f1 := [Literal(x)] + [p2, Literal(y), p3];
    calc {
      AplicarFormato([p1, Literal(x), p2, Literal(y), p3], t1 + ([x] + s2), c);
      { assert [p1, Literal(x), p2, Literal(y), p3] == [p1] + f1; }
      AplicarFormato([p1] + f1, t1 + ([x] + s2), c);
      { PasoCampo(p1, f1, t1, [x] + s2, c); }
      AplicarFormato(f1, [x] + s2, c1);
      { PasoLiteral(x, [p2, Literal(y), p3], s2, c1); }
      AplicarFormato([p2, Literal(y), p3], s2, c1);
      { AplicarDos(p2, p3, y, t2, t3, resto, c1); }
      Some((Poner(Poner(c1, p2, LeerNat(t2)), p3, LeerNat(t3)), resto));
    }
  }

  /** The last two fields of such a format and the separator between them. */
  lemma AplicarDos(p2: Pieza, p3: Pieza, y: char, t2: string, t3: string, resto: string, c: Campos)
    requires !p2.Literal? && !p3.Literal? && !EsDigito(y)
    requires SoloDigitos(t2) && SoloDigitos(t3) && 1 <= |t2| <= Ancho(p2) && 1 <= |t3| <= Ancho(p3)
    requires |t3| == Ancho(p3) || resto == [] || !EsDigito(resto[0])
    ensures AplicarFormato([p2, Literal(y), p3], t2 + ([y] + (t3 + resto)), c)
         == Some((Poner(Poner(c, p2, LeerNat(t2)), p3, LeerNat(t3)), resto))
  {
    var c2 := Poner(c, p2, LeerNat(t2));
    var f3 := [Literal(y)] + [p3];
    calc {
      AplicarFormato([p2, Literal(y), p3], t2 + ([y] + (t3 + resto)), c);
      { assert [p2, Literal(y), p3] == [p2] + f3; }
      AplicarFormato([p2] + f3, t2 + ([y] + (t3 + resto)), c);
      { PasoCampo(p2, f3, t2, [y] + (t3 + resto), c); }
      AplicarFormato(f3, [y] + (t3 + resto), c2);
      { PasoLiteral(y, [p3], t3 + resto, c2); }
      AplicarFormato([p3], t3 + resto, c2);
      { assert [p3] == [p3] + []; PasoCampo(p3, [], t3, resto, c2); }
      AplicarFormato([], resto, Poner(c2, p3, LeerNat(t3)));
    }
  }

  /** A format that starts with a numeric field fails on a text that does not start with a digit. */
  lemma FallaSinDigito(p: Pieza, formato: seq<Pieza>, s: string, c: Campos)
    requires !p.Literal? && (s == [] || !EsDigito(s[0]))
    ensures AplicarFormato([p] + formato, s, c) == None
  {
    Paso(p, formato, s, c);
  }

  /** A field followed in the text by a separator other than the format's literal fails. */
  lemma FallaLiteral(p1: Pieza, z: char, formato: seq<Pieza>, t1: string, x: char, resto: string, c: Campos)
    requires !p1.Literal? && SoloDigitos(t1) && 1 <= |t1| <= Ancho(p1) && !EsDigito(x) && z != x
    ensures AplicarFormato([p1, Literal(z)] + formato, t1 + ([x] + resto), c) == None
  {
    assert [p1, Literal(z)] + formato == [p1] + ([Literal(z)] + formato);
    PasoCampo(p1, [Literal(z)] + formato, t1, [x] + resto, c);
    Paso(Literal(z), formato, [x] + resto, Poner(c, p1, LeerNat(t1)));
  }

  /** A run of digits longer than the field leaves a digit where the format's literal is due. */
  lemma FallaLargo(p1: Pieza, z: char, formato: seq<Pieza>, t1: string, resto: string, c: Campos)
    requires !p1.Literal? && SoloDigitos(t1) && |t1| > Ancho(p1) && !EsDigito(z)
    ensures AplicarFormato([p1, Literal(z)] + formato, t1 + resto, c) == None
  {
    var a, b := t1[..Ancho(p1)], t1[Ancho(p1)..] + resto;
    assert t1 + resto == a + b;
    assert [p1, Literal(z)] + formato == [p1] + ([Literal(z)] + formato);
    PasoCampo(p1, [Literal(z)] + formato, a, b, c);
    Paso(Literal(z), formato, b, Poner(c, p1, LeerNat(a)));
    assert b[0] == t1[Ancho(p1)];
  }

  /** The second separator of the text differs from the format's second literal: the format fails. */
  lemma FallaSegundoLiteral(p1: Pieza, p2: Pieza, x: char, z: char, formato: seq<Pieza>, t1: string, t2: string,
                            y: char, resto: string, c: Campos)
    requires !p1.Literal? && !p2.Literal? && !EsDigito(x) && !EsDigito(y) && z != y
    requires SoloDigitos(t1) && SoloDigitos(t2) && 1 <= |t1| <= Ancho(p1) && 1 <= |t2| <= Ancho(p2)
    ensures AplicarFormato([p1, Literal(x), p2, Literal(z)] + formato, t1 + ([x] + (t2 + ([y] + resto))), c) == None
  {
    var c1 := Poner(c, p1, LeerNat(t1));
    var f2 := [p2, Literal(z)] + formato;
    assert [p1, Literal(x), p2, Literal(z)] + formato == [p1] + ([Literal(x)] + f2);
    PasoCampo(p1, [Literal(x)] + f2, t1, [x] + (t2 + ([y] + resto)), c);
    PasoLiteral(x, f2, t2 + ([y] + resto), c1);
    FallaLiteral(p2, z, formato, t2, y, resto, c1);
  }

  /** 'Y-m-d' reads two digits and a slash where it expects four digits and a dash. */
  lemma YmdRechazaDmy(d: string, resto: string)
    requires SoloDigitos(d) && |d| == 2
    ensures AplicarFormato(Ymd, d + (['/'] + resto), Campos(0, 0, 0)) == None
  {
    var f1 := [Literal('-')] + [Mes, Literal('-'), Dia];
    assert Ymd == [Anio] + f1;
    PasoCampo(Anio, f1, d, ['/'] + resto, Campos(0, 0, 0));
    Paso(Literal('-'), [Mes, Literal('-'), Dia], ['/'] + resto, Campos(0, 0, 0).(anio := LeerNat(d)));
  }

  /** 'Y-m-d' on four, two and two digits joined by dashes builds the date of those numbers. */
  lemma DesdeYmd(y: string, m: string, d: string)
    requires SoloDigitos(y) && SoloDigitos(m) && SoloDigitos(d)
    requires |y| == 4 && |m| == 2 && |d| == 2
    ensures DesdeFormato(Ymd, y + (['-'] + (m + (['-'] + d)))) == Some(Normalizar(LeerNat(y), LeerNat(m), LeerNat(d)))
  {
    AplicarTres(Anio, Mes, Dia, '-', '-', y, m, d, [], Campos(0, 0, 0));
    assert d + [] == d;
  }

  /** 'd/m/Y' on two, two and four digits joined by slashes builds the date of those numbers. */
  lemma DesdeDmy(d: string, m: string, y: string)
    requires SoloDigitos(y) && SoloDigitos(m) && SoloDigitos(d)
    requires |y| == 4 && |m| == 2 && |d| == 2
    ensures DesdeFormato(Dmy, d + (['/'] + (m + (['/'] + y)))) == Some(Normalizar(LeerNat(y), LeerNat(m), LeerNat(d)))
  {
    AplicarTres(Dia, Mes, Anio, '/', '/', d, m, y, [], Campos(0, 0, 0));
    assert y + [] == y;
  }

  /** A date the application writes as 'Y-m-d' is read back by the 'Y-m-d' format. */
  lemma LeerYmd(f: Fecha)
    requires Valida(f) && 0 <= f.anio < 10000
    ensures DesdeFormato(Ymd, FormatoYmd(f)) == Some(f)
  {
    var y, m, d := CuatroDigitos(f.anio), DosDigitos(f.mes), DosDigitos(f.dia);
    assert FormatoYmd(f) == y + (['-'] + (m + (['-'] + d)));
    DesdeYmd(y, m, d);
  }

  /** A date printed as 'd/m/Y' (as the reports do) fails 'Y-m-d' and is read back by 'd/m/Y'. */
  lemma LeerDmy(f: Fecha)
    requires Valida(f) && 0 <= f.anio < 10000
    ensures DesdeFormato(Ymd, FormatoDmy(f)) == None
    ensures DesdeFormato(Dmy, FormatoDmy(f)) == Some(f)
  {
    var y, m, d := CuatroDigitos(f.anio), DosDigitos(f.mes), DosDigitos(f.dia);
    assert FormatoDmy(f) == d + (['/'] + (m + (['/'] + y)));
    YmdRechazaDmy(d, m + (['/'] + y));
    DesdeDmy(d, m, y);
  }

  // strtotime's all-numeric dates

  /** A text cut at its two non-digits: digits `t1`, then `x`, digits `t2`, then `y`, digits `t3`. */
  datatype Trozos = Trozos(t1: string, x: char, t2: string, y: char, t3: string)

  predicate BienFormados(t: Trozos) {
    && t.t1 != [] && t.t2 != [] && t.t3 != []
    && SoloDigitos(t.t1) && SoloDigitos(t.t2) && SoloDigitos(t.t3)
    && !EsDigito(t.x) && !EsDigito(t.y)
  }

  function Unir(t: Trozos): string {
    t.t1 + ([t.x] + (t.t2 + ([t.y] + t.t3)))
  }

  /** Cuts a text into three runs of digits joined by single non-digits, when it is one. */
  function Trocear(s: string): (r: Option<Trozos>)
    ensures r.Some? ==> BienFormados(r.value) && Unir(r.value) == s
  {
    var k1 := CuantosDigitos(s, |s|);
    if k1 == 0 || k1 == |s| then None
    else
      var u := s[k1 + 1..];
      var k2 := CuantosDigitos(u, |u|);
      if k2 == 0 || k2 == |u| then None
      else
        var t3 := u[k2 + 1..];
        if t3 == [] || !SoloDigitos(t3) then None
        else
          var t := Trozos(s[..k1], s[k1], u[..k2], u[k2], t3);
          assert u == t.t2 + ([t.y] + t3);
          assert s == t.t1 + ([t.x] + u);
          Some(t)
  }

  /** A text of that shape is cut exactly at its two non-digits. */
  lemma TrocearUnir(t: Trozos)
    requires BienFormados(t)
    ensures Trocear(Unir(t)) == Some(t)
  {
    var u := t.t2 + ([t.y] + t.t3);
    var s := t.t1 + ([t.x] + u);
    assert Unir(t) == s;
    CuantosDigitosDe(t.t1, [t.x] + u, |s|);
    assert CuantosDigitos(s, |s|) == |t.t1|;
    assert s[..|t.t1|] == t.t1 && s[|t.t1|] == t.x && s[|t.t1| + 1..] == u;
    CuantosDigitosDe(t.t2, [t.y] + t.t3, |u|);
    assert CuantosDigitos(u, |u|) == |t.t2|;
    assert u[..|t.t2|] == t.t2 && u[|t.t2|] == t.y && u[|t.t2| + 1..] == t.t3;
    assert Trozos(s[..|t.t1|], s[|t.t1|], u[..|t.t2|], u[|t.t2|], t.t3) == t;
  }

  /**
   * The orders in which strtotime reads three numbers: year, month, day
   * ('2024-03-01', '2024/3/1'); month, day, year, the American form with
   * slashes ('03/01/2024'); and day, month, year with dashes, dots or a tab
   * ('01-03-2024', '1.3.2024').
   */
  datatype OrdenFecha = AnioMesDia | MesDiaAnio | DiaMesAnio

  /** Which order a cut text is read in; months and days have at most two digits, years four. */
  function OrdenDe(t: Trozos): Option<OrdenFecha> {
    if |t.t1| == 4 && |t.t2| <= 2 && |t.t3| <= 2 && ((t.x == '-' && t.y == '-') || (t.x == '/' && t.y == '/')) then
      Some(AnioMesDia)
    else if |t.t1| <= 2 && |t.t2| <= 2 && |t.t3| == 4 && t.x == '/' && t.y == '/' then Some(MesDiaAnio)
    else if |t.t1| <= 2 && |t.t2| <= 2 && |t.t3| == 4 && (t.x == '.' || t.x == '\t' || t.x == '-') && (t.y == '.' || t.y == '-') then
      Some(DiaMesAnio)
    else None
  }

  /** The year, month and day of a cut text read in an order. */
  function EnOrden(t: Trozos, o: OrdenFecha): Fecha
    requires BienFormados(t)
  {
    match o
    case AnioMesDia => Fecha(LeerNat(t.t1), LeerNat(t.t2), LeerNat(t.t3))
    case MesDiaAnio => Fecha(LeerNat(t.t3), LeerNat(t.t1), LeerNat(t.t2))
    case DiaMesAnio => Fecha(LeerNat(t.t3), LeerNat(t.t2), LeerNat(t.t1))
  }

  /** Four digits read as less than 10000. */
  lemma {:induction false} LeerNatCota(s: string)
    requires SoloDigitos(s)
    ensures LeerNat(s) < Potencia10(|s|)
    decreases |s|
  {
    if s != [] {
      var u := s[..|s| - 1];
      LeerNatCota(u);
      assert LeerNat(u) + 1 <= Potencia10(|u|);
      assert LeerNat(u) * 10 + 10 <= Potencia10(|u|) * 10;
    }
  }

  /** The fields of a format that read a whole text, as a date. */
  lemma LeidoEntero(formato: seq<Pieza>, s: string, c: Campos)
    requires AplicarFormato(formato, s, Campos(0, 0, 0)) == Some((c, []))
    ensures DesdeFormato(formato, s) == Some(Normalizar(c.anio, c.mes, c.dia))
  {
  }

  /** What the import's four formats make of a text strtotime reads year first. */
  lemma FormatosAnioPrimero(t: Trozos)
    requires BienFormados(t) && OrdenDe(t) == Some(AnioMesDia)
    ensures var f := Normalizar(LeerNat(t.t1), LeerNat(t.t2), LeerNat(t.t3));
      t.x == '-' ==> DesdeFormato(Ymd, Unir(t)) == Some(f)
    ensures var f := Normalizar(LeerNat(t.t1), LeerNat(t.t2), LeerNat(t.t3));
      t.x == '/' ==> && DesdeFormato(Ymd, Unir(t)).None? && DesdeFormato(Dmy, Unir(t)).None?
                     && DesdeFormato(DmyGuion, Unir(t)).None? && DesdeFormato(YmdBarra, Unir(t)) == Some(f)
  {
    var s := Unir(t);
    var c := Campos(LeerNat(t.t1), LeerNat(t.t2), LeerNat(t.t3));
    assert t.t3 + [] == t.t3;
    if t.x == '-' {
      AplicarTres(Anio, Mes, Dia, '-', '-', t.t1, t.t2, t.t3, [], Campos(0, 0, 0));
      LeidoEntero(Ymd, s, c);
    } else {
      var resto := t.t2 + ([t.y] + t.t3);
      assert Ymd == [Anio, Literal('-')] + [Mes, Literal('-'), Dia];
      FallaLiteral(Anio, '-', [Mes, Literal('-'), Dia], t.t1, '/', resto, Campos(0, 0, 0));
      assert Dmy == [Dia, Literal('/')] + [Mes, Literal('/'), Anio];
      FallaLargo(Dia, '/', [Mes, Literal('/'), Anio], t.t1, [t.x] + resto, Campos(0, 0, 0));
      assert DmyGuion == [Dia, Literal('-')] + [Mes, Literal('-'), Anio];
      FallaLargo(Dia, '-', [Mes, Literal('-'), Anio], t.t1, [t.x] + resto, Campos(0, 0, 0));
      AplicarTres(Anio, Mes, Dia, '/', '/', t.t1, t.t2, t.t3, [], Campos(0, 0, 0));
      LeidoEntero(YmdBarra, s, c);
    }
  }

  /** What the import's first two formats make of an American month/day/year text. */
  lemma FormatosMesPrimero(t: Trozos)
    requires BienFormados(t) && OrdenDe(t) == Some(MesDiaAnio)
    ensures DesdeFormato(Ymd, Unir(t)).None?
    ensures DesdeFormato(Dmy, Unir(t)) == Some(Normalizar(LeerNat(t.t3), LeerNat(t.t2), LeerNat(t.t1)))
  {
    var s := Unir(t);
    assert t.t3 + [] == t.t3;
    assert Ymd == [Anio, Literal('-')] + [Mes, Literal('-'), Dia];
    FallaLiteral(Anio, '-', [Mes, Literal('-'), Dia], t.t1, '/', t.t2 + ([t.y] + t.t3), Campos(0, 0, 0));
    AplicarTres(Dia, Mes, Anio, '/', '/', t.t1, t.t2, t.t3, [], Campos(0, 0, 0));
    LeidoEntero(Dmy, s, Campos(LeerNat(t.t3), LeerNat(t.t2), LeerNat(t.t1)));
  }

  /**
   * What the import's four formats make of a day/month/year text: with two
   * dashes 'd-m-Y' reads it (and 'Y-m-d' stops short of the year's last two
   * digits); with a dot or a tab none of them does.
   */
  lemma FormatosDiaPrimero(t: Trozos)
    requires BienFormados(t) && OrdenDe(t) == Some(DiaMesAnio)
    ensures t.x == '-' && t.y == '-' ==>
      && DesdeFormato(Ymd, Unir(t)).None? && DesdeFormato(Dmy, Unir(t)).None?
      && DesdeFormato(DmyGuion, Unir(t)) == Some(Normalizar(LeerNat(t.t3), LeerNat(t.t2), LeerNat(t.t1)))
    ensures !(t.x == '-' && t.y == '-') ==>
      && DesdeFormato(Ymd, Unir(t)).None? && DesdeFormato(Dmy, Unir(t)).None?
      && DesdeFormato(DmyGuion, Unir(t)).None? && DesdeFormato(YmdBarra, Unir(t)).None?
  {
    var s := Unir(t);
    var c0 := Campos(0, 0, 0);
    var resto := t.t2 + ([t.y] + t.t3);
    assert Ymd == [Anio, Literal('-')] + [Mes, Literal('-'), Dia];
    assert Dmy == [Dia, Literal('/')] + [Mes, Literal('/'), Anio];
    assert DmyGuion == [Dia, Literal('-')] + [Mes, Literal('-'), Anio];
    assert YmdBarra == [Anio, Literal('/')] + [Mes, Literal('/'), Dia];
    FallaLiteral(Dia, '/', [Mes, Literal('/'), Anio], t.t1, t.x, resto, c0);
    if t.x == '-' && t.y == '-' {
      var a, b := t.t3[..2], t.t3[2..];
      assert t.t3 == a + b;
      AplicarTres(Anio, Mes, Dia, '-', '-', t.t1, t.t2, a, b, c0);
      assert t.t3 + [] == t.t3;
      AplicarTres(Dia, Mes, Anio, '-', '-', t.t1, t.t2, t.t3, [], c0);
      LeidoEntero(DmyGuion, s, Campos(LeerNat(t.t3), LeerNat(t.t2), LeerNat(t.t1)));
    } else {
      FallaLiteral(Anio, '/', [Mes, Literal('/'), Dia], t.t1, t.x, resto, c0);
      if t.x != '-' {
        FallaLiteral(Anio, '-', [Mes, Literal('-'), Dia], t.t1, t.x, resto, c0);
        FallaLiteral(Dia, '-', [Mes, Literal('-'), Anio], t.t1, t.x, resto, c0);
      } else {
        assert [Anio, Literal('-'), Mes, Literal('-')] + [Dia] == Ymd;
        FallaSegundoLiteral(Anio, Mes, '-', '-', [Dia], t.t1, t.t2, t.y, t.t3, c0);
        assert [Dia, Literal('-'), Mes, Literal('-')] + [Anio] == DmyGuion;
        FallaSegundoLiteral(Dia, Mes, '-', '-', [Anio], t.t1, t.t2, t.y, t.t3, c0);
      }
    }
  }

  /** A 'Y-m-d' text followed by more text that starts with a non-digit is read by none of the four formats. */
  lemma FormatosConResto(y: string, m: string, d: string, resto: string)
    requires SoloDigitos(y) && SoloDigitos(m) && SoloDigitos(d) && |y| == 4 && |m| == 2 && |d| == 2
    requires resto != [] && !EsDigito(resto[0])
    ensures var s := y + (['-'] + (m + (['-'] + (d + resto))));
      && DesdeFormato(Ymd, s).None? && DesdeFormato(Dmy, s).None?
      && DesdeFormato(DmyGuion, s).None? && DesdeFormato(YmdBarra, s).None?
  {
    var cola := m + (['-'] + (d + resto));
    var s := y + (['-'] + cola);
    var c0 := Campos(0, 0, 0);
    assert DesdeFormato(Ymd, s).None? by {
      AplicarTres(Anio, Mes, Dia, '-', '-', y, m, d, resto, c0);
    }
    assert DesdeFormato(Dmy, s).None? by {
      assert Dmy == [Dia, Literal('/')] + [Mes, Literal('/'), Anio];
      FallaLargo(Dia, '/', [Mes, Literal('/'), Anio], y, ['-'] + cola, c0);
    }
    assert DesdeFormato(DmyGuion, s).None? by {
      assert DmyGuion == [Dia, Literal('-')] + [Mes, Literal('-'), Anio];
      FallaLargo(Dia, '-', [Mes, Literal('-'), Anio], y, ['-'] + cola, c0);
    }
    assert DesdeFormato(YmdBarra, s).None? by {
      assert YmdBarra == [Anio, Literal('/')] + [Mes, Literal('/'), Dia];
      FallaLiteral(Anio, '/', [Mes, Literal('/'), Dia], y, '-', cola, c0);
    }
  }

  /** A text whose first character is not a digit (a leading blank, say) is read by none of the four formats. */
  lemma FormatosSinDigitoInicial(s: string)
    requires s == [] || !EsDigito(s[0])
    ensures DesdeFormato(Ymd, s).None? && DesdeFormato(Dmy, s).None?
    ensures DesdeFormato(DmyGuion, s).None? && DesdeFormato(YmdBarra, s).None?
  {
    var c0 := Campos(0, 0, 0);
    assert Ymd == [Anio] + Ymd[1..] && Dmy == [Dia] + Dmy[1..];
    assert DmyGuion == [Dia] + DmyGuion[1..] && YmdBarra == [Anio] + YmdBarra[1..];
    FallaSinDigito(Anio, Ymd[1..], s, c0);
    FallaSinDigito(Dia, Dmy[1..], s, c0);
    FallaSinDigito(Dia, DmyGuion[1..], s, c0);
    FallaSinDigito(Anio, YmdBarra[1..], s, c0);
  }
}
