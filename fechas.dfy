/** Calendar dates written `YYYY-MM-DD`, read as proleptic Gregorian day numbers
    (day 1 is 0001-01-01, as Python's `date.toordinal`). */
module Fechas {
  import opened Valores
  import Texto

  predicate Bisiesto(anio: int) {
    anio % 4 == 0 && (anio % 100 != 0 || anio % 400 == 0)
  }

  function DiasDelMes(anio: int, mes: int): (n: nat)
    requires 1 <= mes <= 12
    ensures 28 <= n <= 31
  {
    if mes == 2 then (if Bisiesto(anio) then 29 else 28)
    else if mes == 4 || mes == 6 || mes == 9 || mes == 11 then 30
    else 31
  }

  /** Days in the months of `anio` before `mes`. */
  function DiasAntesDelMes(anio: int, mes: int): nat
    requires 1 <= mes <= 12
  {
    if mes == 1 then 0 else DiasAntesDelMes(anio, mes - 1) + DiasDelMes(anio, mes - 1)
  }

  /** A calendar date as its three fields. */
  datatype Fecha = Fecha(anio: int, mes: int, dia: int)

  /** The dates `date` can hold: years 1 to 9999, a month, and a day of that month. */
  predicate Valida(f: Fecha) {
    1 <= f.anio <= 9999 && 1 <= f.mes <= 12 && 1 <= f.dia <= DiasDelMes(f.anio, f.mes)
  }

  /** Day number of a date. */
  function Ordinal(f: Fecha): int
    requires f.anio >= 1 && 1 <= f.mes <= 12
  {
    var y := f.anio - 1;
    365 * y + y / 4 - y / 100 + y / 400 + DiasAntesDelMes(f.anio, f.mes) + f.dia
  }

  /** Day number of 9999-12-31, the last day `date` can hold: adding days
      past it raises `OverflowError`. */
  const UltimoDia: int := 3652059

  /** Calendar order: by year, then month, then day. */
  predicate Anterior(x: Fecha, y: Fecha) {
    || x.anio < y.anio
    || (x.anio == y.anio && (x.mes < y.mes || (x.mes == y.mes && x.dia < y.dia)))
  }

  /** The day after a date: the next day of the month, else the first of the
      next month, else New Year's Day. */
  function Siguiente(f: Fecha): Fecha
    requires Valida(f)
  {
    if f.dia < DiasDelMes(f.anio, f.mes) then Fecha(f.anio, f.mes, f.dia + 1)
    else if f.mes < 12 then Fecha(f.anio, f.mes + 1, 1)
    else Fecha(f.anio + 1, 1, 1)
  }

  // ---------------------------------------------------------------------------
  // Day numbers

  /** `x / k` steps up by one exactly at the multiples of `k`. */
  lemma Escalon(x: int, k: int)
    requires x >= 1 && k >= 1
    ensures x / k - (x - 1) / k == if x % k == 0 then 1 else 0
  {
    var q := (x - 1) / k;
    var r := (x - 1) % k;
    assert x == k * q + r + 1;
    if r == k - 1 {
      assert x == k * (q + 1);
      DivisionUnica(x, k, q + 1, 0);
    } else {
      DivisionUnica(x, k, q, r + 1);
    }
  }

  /** Quotient and remainder are the only pair with `0 <= r < k`. */
  lemma DivisionUnica(x: int, k: int, q: int, r: int)
    requires k >= 1 && 0 <= r < k && x == k * q + r
    ensures x / k == q && x % k == r
  {
    var q' := x / k;
    var r' := x % k;
    assert x == k * q' + r' && 0 <= r' < k;
    if q' < q {
      MultiploCota(k, q - q');
    } else if q' > q {
      MultiploCota(k, q' - q);
    }
  }

  /** A positive multiple of `k` is at least `k`. */
  lemma MultiploCota(k: int, d: int)
    requires k >= 1 && d >= 1
    ensures k * d >= k
  {
  }

  /** A year has 366 days when it is a leap year and 365 otherwise. */
  lemma DiasDelAnio(anio: int)
    ensures DiasAntesDelMes(anio, 12) + DiasDelMes(anio, 12) == if Bisiesto(anio) then 366 else 365
  {
    var feb := DiasDelMes(anio, 2);
    assert DiasAntesDelMes(anio, 2) == 31;
    assert DiasAntesDelMes(anio, 3) == 31 + feb;
    assert DiasAntesDelMes(anio, 4) == 62 + feb;
    assert DiasAntesDelMes(anio, 5) == 92 + feb;
    assert DiasAntesDelMes(anio, 6) == 123 + feb;
    assert DiasAntesDelMes(anio, 7) == 153 + feb;
    assert DiasAntesDelMes(anio, 8) == 184 + feb;
    assert DiasAntesDelMes(anio, 9) == 215 + feb;
    assert DiasAntesDelMes(anio, 10) == 245 + feb;
    assert DiasAntesDelMes(anio, 11) == 276 + feb;
    assert DiasAntesDelMes(anio, 12) == 306 + feb;
  }

  /** The leap days up to the end of `anio`, counted by the rule of 4, 100
      and 400, grow by one exactly in a leap year. */
  lemma SaltoBisiesto(anio: int)
    requires anio >= 1
    ensures (anio / 4 - anio / 100 + anio / 400) - ((anio - 1) / 4 - (anio - 1) / 100 + (anio - 1) / 400)
            == if Bisiesto(anio) then 1 else 0
  {
    Escalon(anio, 4);
    Escalon(anio, 100);
    Escalon(anio, 400);
    if anio % 400 == 0 {
      assert anio % 100 == 0 && anio % 4 == 0;
    } else if anio % 100 == 0 {
      assert anio % 4 == 0;
    }
  }

  /** The day after a valid date other than 9999-12-31 is a valid date,
      later in calendar order, with the next day number. */
  lemma OrdinalSiguiente(f: Fecha)
    requires Valida(f) && f != Fecha(9999, 12, 31)
    ensures Valida(Siguiente(f)) && Anterior(f, Siguiente(f))
    ensures Ordinal(Siguiente(f)) == Ordinal(f) + 1
  {
    if f.dia == DiasDelMes(f.anio, f.mes) && f.mes == 12 {
      DiasDelAnio(f.anio);
      SaltoBisiesto(f.anio);
    }
  }

  /** Later months start after earlier months end. */
  lemma {:induction false} DiasAntesDelMesCreciente(anio: int, m: int, m2: int)
    requires 1 <= m < m2 <= 12
    ensures DiasAntesDelMes(anio, m) + DiasDelMes(anio, m) <= DiasAntesDelMes(anio, m2)
    decreases m2 - m
  {
    if m2 > m + 1 {
      DiasAntesDelMesCreciente(anio, m, m2 - 1);
    }
  }

  /** Within one year, the later date has the larger number. */
  lemma MismoAnioCreciente(x: Fecha, y: Fecha)
    requires Valida(x) && Valida(y) && x.anio == y.anio && Anterior(x, y)
    ensures Ordinal(x) < Ordinal(y)
  {
    if x.mes < y.mes {
      DiasAntesDelMesCreciente(x.anio, x.mes, y.mes);
    }
  }

  /** Every date of an earlier year comes before New Year's Day of `anio`. */
  lemma {:induction false} AntesDeAnioNuevo(x: Fecha, anio: int)
    requires Valida(x) && x.anio < anio <= 9999
    ensures Ordinal(x) < Ordinal(Fecha(anio, 1, 1))
    decreases anio - x.anio
  {
    var fin := Fecha(anio - 1, 12, 31);
    OrdinalSiguiente(fin);
    if x.anio == anio - 1 {
      if x != fin {
        MismoAnioCreciente(x, fin);
      }
    } else {
      var inicio := Fecha(anio - 1, 1, 1);
      AntesDeAnioNuevo(x, anio - 1);
      MismoAnioCreciente(inicio, fin);
    }
  }

  /** Calendar order and day-number order agree. */
  lemma OrdinalCreciente(x: Fecha, y: Fecha)
    requires Valida(x) && Valida(y) && Anterior(x, y)
    ensures Ordinal(x) < Ordinal(y)
  {
    if x.anio == y.anio {
      MismoAnioCreciente(x, y);
    } else {
      var inicio := Fecha(y.anio, 1, 1);
      AntesDeAnioNuevo(x, y.anio);
      if inicio != y {
        MismoAnioCreciente(inicio, y);
      }
    }
  }

  /** Day numbers order valid dates exactly as the calendar does, and two
      valid dates share a number only when they are the same date. */
  lemma OrdinalOrden(x: Fecha, y: Fecha)
    requires Valida(x) && Valida(y)
    ensures Anterior(x, y) <==> Ordinal(x) < Ordinal(y)
    ensures x == y <==> Ordinal(x) == Ordinal(y)
  {
    if Anterior(x, y) {
      OrdinalCreciente(x, y);
    } else if Anterior(y, x) {
      OrdinalCreciente(y, x);
    }
  }

  /** `UltimoDia` is the day number of 9999-12-31, and no valid date lies after it. */
  lemma UltimoDiaMaximo(f: Fecha)
    requires Valida(f)
    ensures Ordinal(Fecha(9999, 12, 31)) == UltimoDia
    ensures 1 <= Ordinal(f) <= UltimoDia
  {
    var m := Fecha(9999, 12, 31);
    assert DiasAntesDelMes(9999, 12) == 334;
    OrdinalOrden(f, m);
    OrdinalOrden(Fecha(1, 1, 1), f);
  }

  // ---------------------------------------------------------------------------
  // `date.isoformat` and `date.fromisoformat`

  /** The ASCII character of a digit value. */
  function Digito(d: int): (c: char)
    requires 0 <= d < 10
    ensures Texto.EsDigitoAscii(c) && c as int - '0' as int == d
  {
    (('0' as int) + d) as char
  }

  /** A year written with four digits, zero-padded. */
  function AnioTexto(anio: int): (r: string)
    requires 1 <= anio <= 9999
    ensures |r| == 4
  {
    [Digito(anio / 1000), Digito(anio / 100 % 10), Digito(anio / 10 % 10), Digito(anio % 10)]
  }

  /** `AnioTexto` writes the year's own digits. */
  lemma AnioTextoDigitos(anio: int)
    requires 1 <= anio <= 9999
    ensures Texto.SonDigitosAscii(AnioTexto(anio)) && Texto.ValorDigitos(AnioTexto(anio)) == anio
  {
    var t := AnioTexto(anio);
    assert forall i | 0 <= i < 4 :: Texto.EsDigitoAscii(t[i]);
    ValorCuatro(t);
    assert Cifra(t[0]) == anio / 1000 && Cifra(t[1]) == anio / 100 % 10;
    assert Cifra(t[2]) == anio / 10 % 10 && Cifra(t[3]) == anio % 10;
    CuatroCifras(anio);
  }

  /** A number below 10000 is the sum of its four decimal digits' places. */
  lemma CuatroCifras(n: int)
    requires 0 <= n < 10000
    ensures n == 1000 * (n / 1000) + 100 * (n / 100 % 10) + 10 * (n / 10 % 10) + n % 10
  {
    var q := n / 10;
    DivisionUnica(n, 100, q / 10, 10 * (q % 10) + n % 10);
    DivisionUnica(n, 1000, q / 100, 100 * (q / 10 % 10) + 10 * (q % 10) + n % 10);
  }

  /** Four ASCII digits are the `AnioTexto` of the year they spell. */
  lemma AnioTextoUnico(a: string)
    requires |a| == 4 && Texto.SoloDigitos(a) && Texto.ValorDigitos(a) >= 1
    ensures Texto.ValorDigitos(a) <= 9999 && AnioTexto(Texto.ValorDigitos(a)) == a
  {
    ValorCuatro(a);
    CuatroCifrasSeparadas(Cifra(a[0]), Cifra(a[1]), Cifra(a[2]), Cifra(a[3]));
    var t := AnioTexto(Texto.ValorDigitos(a));
    assert t[0] == a[0] && t[1] == a[1] && t[2] == a[2] && t[3] == a[3];
  }

  /** The four decimal places of a number written with the digits `c0` to `c3`
      are those digits. */
  lemma CuatroCifrasSeparadas(c0: int, c1: int, c2: int, c3: int)
    requires 0 <= c0 < 10 && 0 <= c1 < 10 && 0 <= c2 < 10 && 0 <= c3 < 10
    ensures var v := 1000 * c0 + 100 * c1 + 10 * c2 + c3;
            && v <= 9999 && v / 1000 == c0 && v / 100 % 10 == c1 && v / 10 % 10 == c2 && v % 10 == c3
  {
    var v := 1000 * c0 + 100 * c1 + 10 * c2 + c3;
    DivisionUnica(v, 1000, c0, 100 * c1 + 10 * c2 + c3);
    DivisionUnica(v, 100, 10 * c0 + c1, 10 * c2 + c3);
    DivisionUnica(10 * c0 + c1, 10, c0, c1);
    DivisionUnica(v, 10, 100 * c0 + 10 * c1 + c2, c3);
    DivisionUnica(100 * c0 + 10 * c1 + c2, 10, 10 * c0 + c1, c2);
  }

  /** A month or day written with two digits, zero-padded. */
  function MesDiaTexto(n: int): (r: string)
    requires 1 <= n <= 31
    ensures |r| == 2
  {
    [Digito(n / 10), Digito(n % 10)]
  }

  /** `MesDiaTexto` writes the number's own digits. */
  lemma MesDiaTextoDigitos(n: int)
    requires 1 <= n <= 31
    ensures Texto.SonDigitosAscii(MesDiaTexto(n)) && Texto.ValorDigitos(MesDiaTexto(n)) == n
  {
    var t := MesDiaTexto(n);
    assert forall i | 0 <= i < 2 :: Texto.EsDigitoAscii(t[i]);
    ValorDos(t);
  }

  /** Two ASCII digits are the `MesDiaTexto` of the number they spell. */
  lemma MesDiaTextoUnico(m: string)
    requires |m| == 2 && Texto.SoloDigitos(m) && 1 <= Texto.ValorDigitos(m) <= 31
    ensures MesDiaTexto(Texto.ValorDigitos(m)) == m
  {
    ValorDos(m);
    var c0, c1 := m[0] as int - '0' as int, m[1] as int - '0' as int;
    DivisionUnica(Texto.ValorDigitos(m), 10, c0, c1);
    var t := MesDiaTexto(Texto.ValorDigitos(m));
    assert t[0] == m[0] && t[1] == m[1];
  }

  /** `date.isoformat()`: `YYYY-MM-DD`, every field zero-padded. */
  function TextoFecha(f: Fecha): (r: string)
    requires Valida(f)
    ensures |r| == 10 && r[4] == '-' && r[7] == '-'
  {
    var a, m, d := AnioTexto(f.anio), MesDiaTexto(f.mes), MesDiaTexto(f.dia);
    var r := a + ("-" + (m + ("-" + d)));
    assert r[4] == '-' && r[7] == '-';
    r
  }

  /** The dashed form of `fromisoformat`: reads exactly `YYYY-MM-DD` naming a real
      date of years 1 to 9999; anything else is None. */
  function ParseFechaIso(s: string): (r: Option<int>)
    ensures r.Some? ==> |s| == 10 && s[4] == '-' && s[7] == '-'
  {
    if |s| != 10 || s[4] != '-' || s[7] != '-' then None
    else if !(Texto.SonDigitosAscii(s[..4]) && Texto.SonDigitosAscii(s[5..7]) && Texto.SonDigitosAscii(s[8..])) then None
    else
      var anio := Texto.ValorDigitos(s[..4]);
      var mes := Texto.ValorDigitos(s[5..7]);
      var dia := Texto.ValorDigitos(s[8..]);
      if anio < 1 || mes < 1 || mes > 12 || dia < 1 || dia > DiasDelMes(anio, mes) then None
      else FechaDeCampos(anio, Some(mes), Some(dia))
  }

  /** The three parts of a text shaped `YYYY-MM-DD`. */
  lemma PartesDiez(a: string, m: string, d: string)
    requires |a| == 4 && |m| == 2 && |d| == 2
    ensures (a + ("-" + (m + ("-" + d))))[..4] == a
    ensures (a + ("-" + (m + ("-" + d))))[5..7] == m
    ensures (a + ("-" + (m + ("-" + d))))[8..] == d
  {
    var s := a + ("-" + (m + ("-" + d)));
    assert s[..4] == a;
    assert s[5..7] == m;
    assert s[8..] == d;
  }

  /** The three parts of `TextoFecha`. */
  lemma TextoFechaPartes(f: Fecha)
    requires Valida(f)
    ensures TextoFecha(f)[..4] == AnioTexto(f.anio)
    ensures TextoFecha(f)[5..7] == MesDiaTexto(f.mes)
    ensures TextoFecha(f)[8..] == MesDiaTexto(f.dia)
  {
    PartesDiez(AnioTexto(f.anio), MesDiaTexto(f.mes), MesDiaTexto(f.dia));
  }

  /** What `isoformat` writes, `fromisoformat` reads back as the same day. */
  lemma ParseTextoFecha(f: Fecha)
    requires Valida(f)
    ensures ParseFechaIso(TextoFecha(f)) == Some(Ordinal(f))
  {
    TextoFechaPartes(f);
    AnioTextoDigitos(f.anio);
    MesDiaTextoDigitos(f.mes);
    MesDiaTextoDigitos(f.dia);
  }

  /** What an accepted dashed `fromisoformat` text is made of. */
  lemma IsoCampos(s: string)
    requires ParseFechaIso(s).Some?
    ensures |s| == 10 && s[4] == '-' && s[7] == '-'
    ensures Texto.SonDigitosAscii(s[..4]) && Texto.SonDigitosAscii(s[5..7]) && Texto.SonDigitosAscii(s[8..])
    ensures var f := Fecha(Texto.ValorDigitos(s[..4]), Texto.ValorDigitos(s[5..7]), Texto.ValorDigitos(s[8..]));
            Valida(f) && ParseFechaIso(s) == Some(Ordinal(f))
  {
  }

  /** Padded digits are the `isoformat` of the date they spell. */
  lemma IsoEsTexto(a: string, m: string, d: string)
    requires |a| == 4 && |m| == 2 && |d| == 2
    requires Texto.SoloDigitos(a) && Texto.SoloDigitos(m) && Texto.SoloDigitos(d)
    requires Valida(Fecha(Texto.ValorDigitos(a), Texto.ValorDigitos(m), Texto.ValorDigitos(d)))
    ensures TextoFecha(Fecha(Texto.ValorDigitos(a), Texto.ValorDigitos(m), Texto.ValorDigitos(d))) == a + ("-" + (m + ("-" + d)))
  {
    AnioTextoUnico(a);
    MesDiaTextoUnico(m);
    MesDiaTextoUnico(d);
  }

  /** Every dashed text `fromisoformat` accepts is the `isoformat` of the date it reads. */
  lemma ParseEsTextoFecha(s: string)
    requires ParseFechaIso(s).Some?
    ensures exists f :: Valida(f) && s == TextoFecha(f) && ParseFechaIso(s) == Some(Ordinal(f))
  {
    IsoCampos(s);
    var a, m, d := s[..4], s[5..7], s[8..];
    var f := Fecha(Texto.ValorDigitos(a), Texto.ValorDigitos(m), Texto.ValorDigitos(d));
    IsoEsTexto(a, m, d);
    DiezPartes(s);
    assert Valida(f) && s == TextoFecha(f) && ParseFechaIso(s) == Some(Ordinal(f));
  }

  /** A ten-character text with dashes at 4 and 7 is its three parts joined by dashes. */
  lemma DiezPartes(s: string)
    requires |s| == 10 && s[4] == '-' && s[7] == '-'
    ensures s == s[..4] + ("-" + (s[5..7] + ("-" + s[8..])))
  {
    assert s[..4] + ("-" + (s[5..7] + ("-" + s[8..]))) == s;
  }

  /** A smaller four-digit year gives the smaller text, whatever follows. */
  lemma TextoMenorAnio(ax: string, rx: string, ay: string, ry: string)
    requires |ax| == 4 && |ay| == 4 && Texto.SoloDigitos(ax) && Texto.SoloDigitos(ay)
    requires Texto.ValorDigitos(ax) < Texto.ValorDigitos(ay)
    ensures Texto.LexMenor(ax + rx, ay + ry)
  {
    Texto.DigitosMenor(ax, ay);
    Texto.LexMenorConcat(ax, rx, ay, ry);
  }

  /** Same year: a smaller two-digit month gives the smaller text. */
  lemma TextoMenorMes(a: string, mx: string, dx: string, my: string, dy: string)
    requires |mx| == 2 && |my| == 2 && Texto.SoloDigitos(mx) && Texto.SoloDigitos(my)
    requires Texto.ValorDigitos(mx) < Texto.ValorDigitos(my)
    ensures Texto.LexMenor(a + ("-" + (mx + ("-" + dx))), a + ("-" + (my + ("-" + dy))))
  {
    Texto.DigitosMenor(mx, my);
    Texto.LexMenorConcat(mx, "-" + dx, my, "-" + dy);
    Texto.LexMenorPrefijoComun("-", mx + ("-" + dx), my + ("-" + dy));
    Texto.LexMenorPrefijoComun(a, "-" + (mx + ("-" + dx)), "-" + (my + ("-" + dy)));
  }

  /** Same year and month: a smaller two-digit day gives the smaller text. */
  lemma TextoMenorDia(a: string, m: string, dx: string, dy: string)
    requires |dx| == 2 && |dy| == 2 && Texto.SoloDigitos(dx) && Texto.SoloDigitos(dy)
    requires Texto.ValorDigitos(dx) < Texto.ValorDigitos(dy)
    ensures Texto.LexMenor(a + ("-" + (m + ("-" + dx))), a + ("-" + (m + ("-" + dy))))
  {
    Texto.DigitosMenor(dx, dy);
    Texto.LexMenorPrefijoComun("-", dx, dy);
    Texto.LexMenorPrefijoComun(m, "-" + dx, "-" + dy);
    Texto.LexMenorPrefijoComun("-", m + ("-" + dx), m + ("-" + dy));
    Texto.LexMenorPrefijoComun(a, "-" + (m + ("-" + dx)), "-" + (m + ("-" + dy)));
  }

  /** A date of an earlier year has the smaller `isoformat` text. */
  lemma AnteriorTextoAnio(x: Fecha, y: Fecha)
    requires Valida(x) && Valida(y) && x.anio < y.anio
    ensures Texto.LexMenor(TextoFecha(x), TextoFecha(y))
  {
    var mx, dx := MesDiaTexto(x.mes), MesDiaTexto(x.dia);
    var my, dy := MesDiaTexto(y.mes), MesDiaTexto(y.dia);
    AnioTextoDigitos(x.anio);
    AnioTextoDigitos(y.anio);
    TextoMenorAnio(AnioTexto(x.anio), "-" + (mx + ("-" + dx)), AnioTexto(y.anio), "-" + (my + ("-" + dy)));
  }

  /** Same year, earlier month: the smaller `isoformat` text. */
  lemma AnteriorTextoMes(x: Fecha, y: Fecha)
    requires Valida(x) && Valida(y) && x.anio == y.anio && x.mes < y.mes
    ensures Texto.LexMenor(TextoFecha(x), TextoFecha(y))
  {
    MesDiaTextoDigitos(x.mes);
    MesDiaTextoDigitos(y.mes);
    TextoMenorMes(AnioTexto(x.anio), MesDiaTexto(x.mes), MesDiaTexto(x.dia), MesDiaTexto(y.mes), MesDiaTexto(y.dia));
  }

  /** Same year and month, earlier day: the smaller `isoformat` text. */
  lemma AnteriorTextoDia(x: Fecha, y: Fecha)
    requires Valida(x) && Valida(y) && x.anio == y.anio && x.mes == y.mes && x.dia < y.dia
    ensures Texto.LexMenor(TextoFecha(x), TextoFecha(y))
  {
    MesDiaTextoDigitos(x.dia);
    MesDiaTextoDigitos(y.dia);
    TextoMenorDia(AnioTexto(x.anio), MesDiaTexto(x.mes), MesDiaTexto(x.dia), MesDiaTexto(y.dia));
  }

  /** An earlier date has the smaller `isoformat` text. */
  lemma AnteriorTexto(x: Fecha, y: Fecha)
    requires Valida(x) && Valida(y) && Anterior(x, y)
    ensures Texto.LexMenor(TextoFecha(x), TextoFecha(y))
  {
    if x.anio < y.anio {
      AnteriorTextoAnio(x, y);
    } else if x.mes < y.mes {
      AnteriorTextoMes(x, y);
    } else {
      AnteriorTextoDia(x, y);
    }
  }

  /** `isoformat` texts sort as strings exactly in calendar order, so text
      comparisons of stored dates compare the days. */
  lemma TextoFechaOrden(x: Fecha, y: Fecha)
    requires Valida(x) && Valida(y)
    ensures Texto.LexMenor(TextoFecha(x), TextoFecha(y)) <==> Ordinal(x) < Ordinal(y)
  {
    OrdinalOrden(x, y);
    var tx, ty := TextoFecha(x), TextoFecha(y);
    if Anterior(x, y) {
      AnteriorTexto(x, y);
    } else if Anterior(y, x) {
      AnteriorTexto(y, x);
      Texto.LexMenorAsimetrico(ty, tx);
    } else {
      assert x == y;
      Texto.LexMenorIrreflexivo(tx);
    }
  }

  // ---------------------------------------------------------------------------
  // `datetime.strptime(s, '%Y-%m-%d')`

  /** `\d` in a `str` pattern. */
  predicate EsCifra(c: char) {
    Texto.ValorDecimal(c).Some?
  }

  /** The value of a digit `int()` reads. */
  function Cifra(c: char): (v: nat)
    requires EsCifra(c)
    ensures v < 10
  {
    Texto.ValorDecimal(c).value
  }

  /** `%m`, which must cover all of `t`: `1[0-2]`, `0[1-9]` or `[1-9]`. */
  function MesStrptime(t: string): (r: Option<int>)
    ensures r.Some? ==> 1 <= r.value <= 12
  {
    if |t| == 2 && t[0] == '1' && '0' <= t[1] <= '2' then Some(10 + (t[1] as int - '0' as int))
    else if |t| == 2 && t[0] == '0' && '1' <= t[1] <= '9' then Some(t[1] as int - '0' as int)
    else if |t| == 1 && '1' <= t[0] <= '9' then Some(t[0] as int - '0' as int)
    else None
  }

  /** `%d`, which must cover all of `t`: `3[01]`, `[12]\d`, `0[1-9]`, `[1-9]`
      or a space then `[1-9]` (which `int()` reads past the space). */
  function DiaStrptime(t: string): (r: Option<int>)
    ensures r.Some? ==> 1 <= r.value <= 31
  {
    if |t| == 2 && t[0] == '3' && '0' <= t[1] <= '1' then Some(30 + (t[1] as int - '0' as int))
    else if |t| == 2 && '1' <= t[0] <= '2' && EsCifra(t[1]) then Some(10 * (t[0] as int - '0' as int) + Cifra(t[1]))
    else if |t| == 2 && t[0] == '0' && '1' <= t[1] <= '9' then Some(t[1] as int - '0' as int)
    else if |t| == 1 && '1' <= t[0] <= '9' then Some(t[0] as int - '0' as int)
    else if |t| == 2 && t[0] == ' ' && '1' <= t[1] <= '9' then Some(t[1] as int - '0' as int)
    else None
  }

  /** The day number of the date the fields name, None when `date` refuses
      them (a year outside 1 to 9999, a day past the end of the month). */
  function FechaDeCampos(anio: int, mes: Option<int>, dia: Option<int>): (r: Option<int>)
    ensures r.Some? <==> && 1 <= anio <= 9999 && mes.Some? && dia.Some?
                         && Valida(Fecha(anio, mes.value, dia.value))
    ensures r.Some? ==> r.value == Ordinal(Fecha(anio, mes.value, dia.value))
  {
    if anio < 1 || anio > 9999 || mes.None? || dia.None? || !Valida(Fecha(anio, mes.value, dia.value)) then None
    else Some(Ordinal(Fecha(anio, mes.value, dia.value)))
  }

  /** `%Y`: four digits, read as `int()` reads them. */
  function AnioStrptime(s: string): (r: Option<int>)
    requires |s| >= 4
    ensures r.Some? ==> 0 <= r.value <= 9999
  {
    if EsCifra(s[0]) && EsCifra(s[1]) && EsCifra(s[2]) && EsCifra(s[3])
    then Some(1000 * Cifra(s[0]) + 100 * Cifra(s[1]) + 10 * Cifra(s[2]) + Cifra(s[3]))
    else None
  }

  /** Where the month ends. It is two characters exactly when the one after
      its first is not the dash: a two-character month that matched leaves a
      digit there, so the one-character form could not be followed by its dash. */
  function FinMes(s: string): (k: nat)
    requires |s| >= 7
    ensures k == 6 || k == 7
  {
    if s[6] == '-' then 6 else 7
  }

  /** `datetime.strptime(s, '%Y-%m-%d')` as a day number, None where it
      raises ValueError: four digits, a dash, a month of one or two
      characters, a dash and a day that ends the text, naming a real date. */
  function ParseStrptime(s: string): (r: Option<int>)
    ensures r.Some? ==> exists f :: Valida(f) && r.value == Ordinal(f)
  {
    if |s| < 8 || s[4] != '-' || AnioStrptime(s).None? || |s| <= FinMes(s) + 1 || s[FinMes(s)] != '-' then None
    else FechaDeCampos(AnioStrptime(s).value, MesStrptime(s[5..FinMes(s)]), DiaStrptime(s[FinMes(s) + 1..]))
  }

  /** Four ASCII digits spell the number their `Cifra`s give. */
  lemma ValorCuatro(t: string)
    requires |t| == 4 && Texto.SonDigitosAscii(t)
    ensures EsCifra(t[0]) && EsCifra(t[1]) && EsCifra(t[2]) && EsCifra(t[3])
    ensures Texto.ValorDigitos(t) == 1000 * Cifra(t[0]) + 100 * Cifra(t[1]) + 10 * Cifra(t[2]) + Cifra(t[3])
  {
    assert Texto.EsDigitoAscii(t[0]) && Texto.EsDigitoAscii(t[1]);
    assert Texto.EsDigitoAscii(t[2]) && Texto.EsDigitoAscii(t[3]);
    Texto.ValorDigitosUltimo(t);
    Texto.ValorDigitosUltimo(t[..3]);
    Texto.ValorDigitosUltimo(t[..2]);
    Texto.ValorDigitosUltimo(t[..1]);
    assert t[..3][..2] == t[..2] && t[..2][..1] == t[..1] && t[..1][..0] == [];
    assert t[..3][2] == t[2] && t[..2][1] == t[1] && t[..1][0] == t[0];
  }

  /** Two ASCII digits spell ten times the first plus the second. */
  lemma ValorDos(t: string)
    requires |t| == 2 && Texto.SonDigitosAscii(t)
    ensures Texto.EsDigitoAscii(t[0]) && Texto.EsDigitoAscii(t[1])
    ensures Texto.ValorDigitos(t) == 10 * (t[0] as int - '0' as int) + (t[1] as int - '0' as int)
  {
    assert Texto.EsDigitoAscii(t[0]) && Texto.EsDigitoAscii(t[1]);
    Texto.ValorDigitosUltimo(t);
    Texto.ValorDigitosUltimo(t[..1]);
    assert t[..1][..0] == [] && t[..1][0] == t[0];
  }

  /** One ASCII digit spells its own value. */
  lemma ValorUno(t: string)
    requires |t| == 1 && Texto.SonDigitosAscii(t)
    ensures Texto.EsDigitoAscii(t[0])
    ensures Texto.ValorDigitos(t) == t[0] as int - '0' as int
  {
    assert Texto.EsDigitoAscii(t[0]);
    Texto.ValorDigitosUltimo(t);
    assert t[..0] == [];
  }

  /** A month of one or two ASCII digits between 1 and 12 is a `%m` match,
      read as its value. */
  lemma MesCifras(t: string)
    requires 1 <= |t| <= 2 && Texto.SonDigitosAscii(t)
    requires 1 <= Texto.ValorDigitos(t) <= 12
    ensures MesStrptime(t) == Some(Texto.ValorDigitos(t))
  {
    if |t| == 2 { ValorDos(t); } else { ValorUno(t); }
  }

  /** A day of one or two ASCII digits between 1 and 31 is a `%d` match,
      read as its value. */
  lemma DiaCifras(t: string)
    requires 1 <= |t| <= 2 && Texto.SonDigitosAscii(t)
    requires 1 <= Texto.ValorDigitos(t) <= 31
    ensures DiaStrptime(t) == Some(Texto.ValorDigitos(t))
  {
    if |t| == 2 {
      ValorDos(t);
      assert Texto.EsDigitoAscii(t[1]);
    } else {
      ValorUno(t);
    }
  }

  /** `strptime` on four ASCII digits, a dash, a month of one or two digits,
      a dash and the rest: the fields are read from the three parts. */
  lemma StrptimePartes(a: string, m: string, d: string)
    requires |a| == 4 && Texto.SonDigitosAscii(a)
    requires 1 <= |m| <= 2 && Texto.SonDigitosAscii(m) && 1 <= |d|
    ensures ParseStrptime(a + "-" + m + "-" + d) == FechaDeCampos(Texto.ValorDigitos(a), MesStrptime(m), DiaStrptime(d))
  {
    var s := a + "-" + m + "-" + d;
    ValorCuatro(a);
    assert s[0] == a[0] && s[1] == a[1] && s[2] == a[2] && s[3] == a[3] && s[4] == '-';
    var finMes := 5 + |m|;
    assert Texto.EsDigitoAscii(m[|m| - 1]);
    assert s[6] == '-' <==> |m| == 1;
    assert s[5..finMes] == m && s[finMes] == '-' && s[finMes + 1..] == d;
  }

  /** Whatever `fromisoformat` reads as a `YYYY-MM-DD` date, `strptime` reads
      as the same day. */
  lemma StrptimeAceptaIso(s: string)
    requires ParseFechaIso(s).Some?
    ensures ParseStrptime(s) == ParseFechaIso(s)
  {
    var a, m, d := s[..4], s[5..7], s[8..];
    assert s == a + "-" + m + "-" + d;
    StrptimePartes(a, m, d);
    ValorDos(m);
    MesCifras(m);
    DiaCifras(d);
  }

  /** A month or day written without padding: one digit below 10, else two. */
  function SinCeros(n: nat): (r: string)
    requires 1 <= n <= 31
    ensures |r| == (if n < 10 then 1 else 2)
  {
    if n < 10 then [Digito(n)] else MesDiaTexto(n)
  }

  /** `SinCeros` writes the number's own digits. */
  lemma SinCerosDigitos(n: nat)
    requires 1 <= n <= 31
    ensures Texto.SonDigitosAscii(SinCeros(n)) && Texto.ValorDigitos(SinCeros(n)) == n
  {
    if n < 10 {
      ValorUno(SinCeros(n));
    } else {
      MesDiaTextoDigitos(n);
    }
  }

  /** `f"{anio:04d}-{mes}-{dia}"`: the year padded, month and day not. */
  function TextoSinCeros(f: Fecha): (r: string)
    requires Valida(f)
    ensures |r| == 6 + |SinCeros(f.mes)| + |SinCeros(f.dia)|
  {
    AnioTexto(f.anio) + "-" + SinCeros(f.mes) + "-" + SinCeros(f.dia)
  }

  /** An unpadded date holds only digits and dashes: no space and no `T`. */
  lemma TextoSinCerosSinSeparadores(f: Fecha)
    requires Valida(f)
    ensures ' ' !in TextoSinCeros(f) && 'T' !in TextoSinCeros(f)
  {
    var a, m, d := AnioTexto(f.anio), SinCeros(f.mes), SinCeros(f.dia);
    AnioTextoDigitos(f.anio);
    SinCerosDigitos(f.mes);
    SinCerosDigitos(f.dia);
    assert TextoSinCeros(f) == a + "-" + m + "-" + d;
    assert ' ' !in a && 'T' !in a && ' ' !in m && 'T' !in m && ' ' !in d && 'T' !in d;
  }

  /** Unpadded months and days are `%m` and `%d` matches read as themselves. */
  lemma SinCerosCampos(mes: nat, dia: nat)
    requires 1 <= mes <= 12 && 1 <= dia <= 31
    ensures MesStrptime(SinCeros(mes)) == Some(mes)
    ensures DiaStrptime(SinCeros(dia)) == Some(dia)
  {
    SinCerosDigitos(mes);
    SinCerosDigitos(dia);
    MesCifras(SinCeros(mes));
    DiaCifras(SinCeros(dia));
  }

  /** `strptime` reads a one-digit month or day as well; `fromisoformat`
      refuses the same text whenever a field is shorter than two digits. */
  lemma StrptimeSinCeros(f: Fecha)
    requires Valida(f)
    ensures ParseStrptime(TextoSinCeros(f)) == Some(Ordinal(f))
    ensures f.mes < 10 || f.dia < 10 ==> ParseFechaIso(TextoSinCeros(f)).None?
  {
    if f.mes < 10 || f.dia < 10 {
      IsoRechazaCorto(TextoSinCeros(f));
    }
    StrptimeSinCerosLee(f);
  }

  /** The dashed form takes exactly ten characters. */
  lemma IsoRechazaCorto(s: string)
    requires |s| < 10
    ensures ParseFechaIso(s).None?
  {
  }

  lemma StrptimeSinCerosLee(f: Fecha)
    requires Valida(f)
    ensures ParseStrptime(TextoSinCeros(f)) == Some(Ordinal(f))
  {
    var a, m, d := AnioTexto(f.anio), SinCeros(f.mes), SinCeros(f.dia);
    assert TextoSinCeros(f) == a + "-" + m + "-" + d;
    AnioTextoDigitos(f.anio);
    StrptimePartes(a, m, d);
    SinCerosCampos(f.mes, f.dia);
  }

  /** "2024-1-5": `strptime` reads 5 January 2024, `fromisoformat` refuses it. */
  lemma StrptimeEjemplo()
    ensures ParseStrptime("2024-1-5") == Some(Ordinal(Fecha(2024, 1, 5)))
    ensures ParseFechaIso("2024-1-5").None?
  {
    var a, m, d := "2024", "1", "5";
    ValorCuatro(a);
    ValorUno(m);
    ValorUno(d);
    MesCifras(m);
    DiaCifras(d);
    StrptimePartes(a, m, d);
    assert a + "-" + m + "-" + d == "2024-1-5";
    IsoRechazaCorto("2024-1-5");
  }

}
