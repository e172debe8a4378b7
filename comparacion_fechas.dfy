/**
 * Comparing dates as text. PHP compares a 'Y-m-d' string with a Carbon date
 * by turning the date into its 'Y-m-d H:i:s' text and comparing the two
 * strings byte by byte. For years 0 to 9999 the order of the 'Y-m-d' texts
 * is the calendar order, and the time suffix makes a date's own 'Y-m-d'
 * text compare smaller than the Carbon date of the same day.
 */
module ComparacionFechas {
  import opened Texto
  import opened Fechas

  /** Comparing two texts whose first parts have the same length compares the first parts, then the rest. */
  lemma {:induction false} MenorConcatenado(x1: string, x2: string, y1: string, y2: string)
    requires |x1| == |y1|
    ensures MenorTexto(x1 + x2, y1 + y2) <==> MenorTexto(x1, y1) || (x1 == y1 && MenorTexto(x2, y2))
  {
    if x1 != [] {
      assert (x1 + x2)[1..] == x1[1..] + x2;
      assert (y1 + y2)[1..] == y1[1..] + y2;
      MenorConcatenado(x1[1..], x2, y1[1..], y2);
      if x1[0] == y1[0] && x1[1..] == y1[1..] {
        assert x1 == [x1[0]] + x1[1..] && y1 == [y1[0]] + y1[1..];
      }
    } else {
      assert x1 + x2 == x2 && y1 + y2 == y2;
    }
  }

  /** Digit strings of one length compare as text the way their values compare. */
  lemma {:induction false} MenorDigitos(x: string, y: string)
    requires SoloDigitos(x) && SoloDigitos(y) && |x| == |y|
    ensures MenorTexto(x, y) <==> LeerNat(x) < LeerNat(y)
    ensures x == y <==> LeerNat(x) == LeerNat(y)
  {
    if x == [] {
      MenorTextoIrreflexivo(x);
    } else {
      var n := |x| - 1;
      var x1, y1 := x[..n], y[..n];
      MenorDigitos(x1, y1);
      assert x == x1 + [x[n]] && y == y1 + [y[n]];
      MenorConcatenado(x1, [x[n]], y1, [y[n]]);
      var a, b := ValorDigito(x[n]), ValorDigito(y[n]);
      assert x[n] == y[n] <==> a == b;
      assert MenorTexto([x[n]], [y[n]]) <==> a < b;
      assert LeerNat(x) == LeerNat(x1) * 10 + a && LeerNat(y) == LeerNat(y1) * 10 + b;
    }
  }

  /** Three fields joined by '-'. */
  function Tres(y: string, m: string, d: string): string {
    y + ("-" + (m + ("-" + d)))
  }

  /** Texts of three fields of fixed widths compare field by field. */
  lemma OrdenTres(ya: string, ma: string, da: string, yb: string, mb: string, db: string)
    requires |ya| == |yb| && |ma| == |mb|
    ensures MenorTexto(Tres(ya, ma, da), Tres(yb, mb, db)) <==>
      MenorTexto(ya, yb) || (ya == yb && (MenorTexto(ma, mb) || (ma == mb && MenorTexto(da, db))))
  {
    MenorConcatenado(ya, "-" + (ma + ("-" + da)), yb, "-" + (mb + ("-" + db)));
    MenorConcatenado("-", ma + ("-" + da), "-", mb + ("-" + db));
    MenorConcatenado(ma, "-" + da, mb, "-" + db);
    MenorConcatenado("-", da, "-", db);
    MenorTextoIrreflexivo("-");
  }

  /** 'Y-m-d' is its three fields joined by '-', ten characters for years 0 to 9999. */
  lemma PartesYmd(f: Fecha)
    requires Valida(f) && 0 <= f.anio < 10000
    ensures FormatoYmd(f) == Tres(AnioTexto(f.anio), DosDigitos(f.mes), DosDigitos(f.dia))
    ensures |FormatoYmd(f)| == 10
  {
  }

  /** The text of two valid dates of years 0 to 9999 is smaller exactly when the date is earlier. */
  lemma OrdenYmd(a: Fecha, b: Fecha)
    requires Valida(a) && Valida(b) && 0 <= a.anio < 10000 && 0 <= b.anio < 10000
    ensures MenorTexto(FormatoYmd(a), FormatoYmd(b)) <==> Antes(a, b)
  {
    PartesYmd(a);
    PartesYmd(b);
    MenorDigitos(AnioTexto(a.anio), AnioTexto(b.anio));
    MenorDigitos(DosDigitos(a.mes), DosDigitos(b.mes));
    MenorDigitos(DosDigitos(a.dia), DosDigitos(b.dia));
    OrdenTres(AnioTexto(a.anio), DosDigitos(a.mes), DosDigitos(a.dia),
              AnioTexto(b.anio), DosDigitos(b.mes), DosDigitos(b.dia));
    AntesEsLexicografico(a, b);
  }

  /** Two such dates have the same text only when they are the same date. */
  lemma IgualYmd(a: Fecha, b: Fecha)
    requires Valida(a) && Valida(b) && 0 <= a.anio < 10000 && 0 <= b.anio < 10000
    ensures FormatoYmd(a) == FormatoYmd(b) <==> a == b
  {
    if FormatoYmd(a) == FormatoYmd(b) {
      MenorTextoIrreflexivo(FormatoYmd(a));
      OrdenYmd(a, b);
      OrdenYmd(b, a);
      OrdinalInyectivo(a, b);
    }
  }

  /** The text of a Carbon date cast to string, 'Y-m-d H:i:s', at midnight. */
  function TextoCarbon(f: Fecha): string
    requires Valida(f)
  {
    FormatoYmd(f) + " 00:00:00"
  }

  lemma LargoYmd(f: Fecha)
    requires Valida(f) && 0 <= f.anio < 10000
    ensures |FormatoYmd(f)| == 10
  {
  }

  /** `$texto > $carbon` with `$texto` in 'Y-m-d': true exactly when the day is later. */
  lemma MayorQueCarbon(a: Fecha, b: Fecha)
    requires Valida(a) && Valida(b) && 0 <= a.anio < 10000 && 0 <= b.anio < 10000
    ensures MenorTexto(TextoCarbon(b), FormatoYmd(a)) <==> Antes(b, a)
  {
    OrdenYmd(b, a);
    LargoYmd(a);
    LargoYmd(b);
    MenorConcatenado(FormatoYmd(b), " 00:00:00", FormatoYmd(a), "");
    assert FormatoYmd(a) + "" == FormatoYmd(a);
  }

  /** `$texto < $carbon` with `$texto` in 'Y-m-d': true when the day is earlier and also on the same day. */
  lemma MenorQueCarbon(a: Fecha, b: Fecha)
    requires Valida(a) && Valida(b) && 0 <= a.anio < 10000 && 0 <= b.anio < 10000
    ensures MenorTexto(FormatoYmd(a), TextoCarbon(b)) <==> AntesOIgual(a, b)
  {
    OrdenYmd(a, b);
    IgualYmd(a, b);
    LargoYmd(a);
    LargoYmd(b);
    MenorConcatenado(FormatoYmd(a), "", FormatoYmd(b), " 00:00:00");
    assert FormatoYmd(a) + "" == FormatoYmd(a);
    if Ordinal(a) == Ordinal(b) {
      OrdinalInyectivo(a, b);
    }
  }
}
