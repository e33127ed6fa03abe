/** The request logic of the HTTP server (app.py): dotted-path lookup in the
    template context, flattening of form fields, routing of GET and POST
    paths, and the two handlers that change a project's state. Sockets,
    headers, templates and files are not modelled; a handler's outcome is the
    response it sends and the writes it asks the database for. */
module App {
  import opened Valores
  import opened Texto
  import Proyectos

  // ---------------------------------------------------------------------------
  // _get_value

  /** One step of the lookup: a dictionary yields the key's value (None when
      missing); anything else ends the walk with None. */
  function Paso(v: Valor, clave: string): Valor {
    if v.Dict? then (if clave in v.campos then v.campos[clave] else Nulo) else Nulo
  }

  /** The value reached by following `claves` from `v`. */
  function Buscar(v: Valor, claves: seq<string>): Valor
    decreases |claves|
  {
    if |claves| == 0 then v
    else if !v.Dict? then Nulo
    else Buscar(Paso(v, claves[0]), claves[1..])
  }

  /** `_get_value(obj, key_path)`: splits the path on '.' and walks it,
      returning None as soon as the current value is not a dictionary. */
  method GetValue(obj: Valor, ruta: string) returns (r: Valor)
    ensures r == Buscar(obj, Split(ruta, '.'))
  {
    var claves := Split(ruta, '.');
    var actual := obj;
    var i := 0;
    while i < |claves|
      invariant 0 <= i <= |claves|
      invariant Buscar(actual, claves[i..]) == Buscar(obj, claves)
    {
      if actual.Dict? {
        assert claves[i..][1..] == claves[i + 1..];
        actual := Paso(actual, claves[i]);
      } else {
        return Nulo;
      }
      i := i + 1;
    }
    r := actual;
  }

  /** Following `a` and then `b` is following `a + b`. */
  lemma {:induction false} BuscarConcat(v: Valor, a: seq<string>, b: seq<string>)
    ensures Buscar(v, a + b) == Buscar(Buscar(v, a), b)
    decreases |a|
  {
    if |a| == 0 {
      assert a + b == b;
    } else if !v.Dict? {
      assert (a + b)[0] == a[0];
      if |b| > 0 {
        assert !Buscar(v, a).Dict?;
      }
    } else {
      assert (a + b)[1..] == a[1..] + b;
      BuscarConcat(Paso(v, a[0]), a[1..], b);
    }
  }

  /** A missing key or a value that is not a dictionary along the way gives None. */
  lemma {:induction false} BuscarCorte(v: Valor, a: seq<string>, b: seq<string>)
    requires |b| > 0 && !Buscar(v, a).Dict?
    ensures Buscar(v, a + b) == Nulo
  {
    BuscarConcat(v, a, b);
  }

  /** The nested dictionaries that hold `x` under the keys `claves`. */
  function Anidar(claves: seq<string>, x: Valor): Valor {
    if |claves| == 0 then x else Dict(map[claves[0] := Anidar(claves[1..], x)])
  }

  /** Looking up the path a value was nested under finds it. */
  lemma {:induction false} BuscarAnidado(claves: seq<string>, x: Valor)
    ensures Buscar(Anidar(claves, x), claves) == x
  {
    if |claves| > 0 {
      BuscarAnidado(claves[1..], x);
    }
  }

  /** The same through the dotted text: `_get_value` on 'a.b.c' finds what was
      nested under a, b and c, when no key contains a dot. */
  lemma RutaAnidada(claves: seq<string>, x: Valor)
    requires |claves| >= 1
    requires forall k :: 0 <= k < |claves| ==> '.' !in claves[k]
    ensures Buscar(Anidar(claves, x), Split(Join(claves, '.'), '.')) == x
  {
    SplitJoin(claves, '.');
    BuscarAnidado(claves, x);
  }

  // ---------------------------------------------------------------------------
  // parse_post_data

  /** A form field: one value, or the list of values when it was sent several times. */
  datatype Campo = Uno(valor: string) | Varios(valores: seq<string>)

  /** The values of a field, as `parse_qs` returned them. */
  function ValoresDe(c: Campo): seq<string> {
    match c
    case Uno(v) => [v]
    case Varios(vs) => vs
  }

  /** One value becomes that value; any other number of values stays a list. */
  function Aplanar(vs: seq<string>): (c: Campo)
    ensures c.Uno? <==> |vs| == 1
    ensures ValoresDe(c) == vs
  {
    if |vs| == 1 then Uno(vs[0]) else Varios(vs)
  }

  /** The loop of `parse_post_data` over what `parse_qs` produced. */
  method ParsePostData(parsed: map<string, seq<string>>) returns (result: map<string, Campo>)
    ensures result.Keys == parsed.Keys
    ensures forall k :: k in parsed ==> result[k] == Aplanar(parsed[k])
  {
    result := map[];
    var pendientes := parsed.Keys;
    while pendientes != {}
      invariant pendientes <= parsed.Keys
      invariant result.Keys == parsed.Keys - pendientes
      invariant forall k :: k in result ==> result[k] == Aplanar(parsed[k])
      decreases |pendientes|
    {
      var k :| k in pendientes;
      result := result[k := Aplanar(parsed[k])];
      pendientes := pendientes - {k};
    }
  }

  /** Flattening loses nothing: every field's values can be read back. */
  lemma AplanarSinPerdida(parsed: map<string, seq<string>>, result: map<string, Campo>)
    requires result.Keys == parsed.Keys
    requires forall k :: k in parsed ==> result[k] == Aplanar(parsed[k])
    ensures forall k :: k in result ==> ValoresDe(result[k]) == parsed[k]
  {
  }

  /** `data.get(clave, defecto)`. */
  function Leer(data: map<string, Campo>, clave: string, defecto: string): Campo {
    if clave in data then data[clave] else Uno(defecto)
  }

  // ---------------------------------------------------------------------------
  // Digits: str.isdigit, str.isdecimal and int()

  /** The characters with a digit value that are not decimal digits (Unicode
      Numeric_Type=Digit, as of Unicode 15.0): superscripts, subscripts, the
      circled, parenthesized and dotted digits, and the Ethiopic, Kharoshthi,
      Rumi and Brahmi digits among others. */
  predicate DigitoNoDecimal(c: char) {
    || ('\U{00B2}' <= c <= '\U{00B3}')
    || c == '\U{00B9}'
    || ('\U{1369}' <= c <= '\U{1371}')
    || c == '\U{19DA}'
    || c == '\U{2070}'
    || ('\U{2074}' <= c <= '\U{2079}')
    || ('\U{2080}' <= c <= '\U{2089}')
    || ('\U{2460}' <= c <= '\U{2468}')
    || ('\U{2474}' <= c <= '\U{247C}')
    || ('\U{2488}' <= c <= '\U{2490}')
    || c == '\U{24EA}'
    || ('\U{24F5}' <= c <= '\U{24FD}')
    || c == '\U{24FF}'
    || ('\U{2776}' <= c <= '\U{277E}')
    || ('\U{2780}' <= c <= '\U{2788}')
    || ('\U{278A}' <= c <= '\U{2792}')
    || ('\U{10A40}' <= c <= '\U{10A43}')
    || ('\U{10E60}' <= c <= '\U{10E68}')
    || ('\U{11052}' <= c <= '\U{1105A}')
    || ('\U{1F100}' <= c <= '\U{1F10A}')
  }

  /** `str.isdigit` on one character: a decimal digit or one of the digits
      that are not decimal. */
  predicate EsDigito(c: char) {
    ValorDecimal(c).Some? || DigitoNoDecimal(c)
  }

  /** `s.isdigit()`. */
  predicate IsDigit(s: string) {
    |s| > 0 && forall i :: 0 <= i < |s| ==> EsDigito(s[i])
  }

  /** `s.isdecimal()`. */
  predicate IsDecimal(s: string) {
    |s| > 0 && forall i :: 0 <= i < |s| ==> ValorDecimal(s[i]).Some?
  }

  /** The number a run of decimal digits spells in base 10. */
  function ValorUnicode(s: string): nat
    requires forall i :: 0 <= i < |s| ==> ValorDecimal(s[i]).Some?
  {
    if |s| == 0 then 0
    else 10 * ValorUnicode(s[..|s| - 1]) + ValorDecimal(s[|s| - 1]).value
  }

  /** On ASCII digits the value is the usual one. */
  lemma {:induction false} ValorUnicodeAscii(s: string)
    requires forall i :: 0 <= i < |s| ==> EsDigitoAscii(s[i])
    ensures forall i :: 0 <= i < |s| ==> ValorDecimal(s[i]).Some?
    ensures ValorUnicode(s) == ValorDigitos(s)
  {
    if |s| > 0 {
      ValorUnicodeAscii(s[..|s| - 1]);
    }
  }

  /** The most digits `int()` converts from text in base 10
      (`sys.int_info.default_max_str_digits`); longer digit runs, leading
      zeros included, raise ValueError. */
  const MaxDigitosInt: nat := 4300

  /** A run of digits `int()` reads: decimal, and no longer than the limit. */
  predicate EnteroLegible(d: string) {
    IsDecimal(d) && |d| <= MaxDigitosInt
  }

  /** `int()` once the surrounding whitespace is gone: an optional sign, then
      at most `MaxDigitosInt` decimal digits; anything else raises ValueError
      (None). */
  function IntRecortado(t: string): (r: Option<int>)
    ensures r.Some? ==> |t| > 0
  {
    if |t| > 0 && (t[0] == '+' || t[0] == '-') then
      var d := t[1..];
      var valor: int := if IsDecimal(d) then ValorUnicode(d) else 0;
      if EnteroLegible(d) then Some(if t[0] == '-' then -valor else valor) else None
    else if EnteroLegible(t) then Some(ValorUnicode(t))
    else None
  }

  /** The whitespace `int()` skips around a number. CPython first turns every
      whitespace character above U+007F into a space and then skips the ASCII
      whitespace, so this is `str.isspace` without the separators
      U+001C..U+001F, which stay in the text and make `int()` raise. */
  predicate EspacioInt(c: char) {
    EsEspacio(c) && !('\U{001C}' <= c <= '\U{001F}')
  }

  /** `s` without the leading whitespace `int()` skips. */
  function QuitarIzqInt(s: string): (r: string)
    ensures |r| <= |s| && r == s[|s| - |r|..]
    ensures r == [] || !EspacioInt(r[0])
    ensures forall i :: 0 <= i < |s| - |r| ==> EspacioInt(s[i])
  {
    if |s| > 0 && EspacioInt(s[0]) then QuitarIzqInt(s[1..]) else s
  }

  /** `s` without the trailing whitespace `int()` skips. */
  function QuitarDerInt(s: string): (r: string)
    ensures |r| <= |s| && r == s[..|r|]
    ensures r == [] || !EspacioInt(r[|r| - 1])
    ensures forall i :: |r| <= i < |s| ==> EspacioInt(s[i])
  {
    if |s| > 0 && EspacioInt(s[|s| - 1]) then QuitarDerInt(s[..|s| - 1]) else s
  }

  /** What `int()` reads once the surrounding whitespace is skipped. */
  function RecorteInt(s: string): string {
    QuitarDerInt(QuitarIzqInt(s))
  }

  /** `int(s)` on text: surrounding whitespace, an optional sign, then at
      most `MaxDigitosInt` decimal digits; anything else raises ValueError
      (None). */
  function IntPython(s: string): (r: Option<int>)
    ensures r.Some? ==> |RecorteInt(s)| > 0
  {
    IntRecortado(RecorteInt(s))
  }

  /** A first character that is neither a sign nor a decimal digit, or a
      last one that is not a decimal digit, makes `int()` raise. */
  lemma IntRecortadoRechaza(t: string)
    requires |t| > 0
    requires (t[0] != '+' && t[0] != '-' && ValorDecimal(t[0]).None?) || ValorDecimal(t[|t| - 1]).None?
    ensures IntRecortado(t) == None
  {
    if t[0] == '+' || t[0] == '-' {
      assert ValorDecimal(t[|t| - 1]).None?;
      if |t| > 1 {
        assert t[1..][|t| - 2] == t[|t| - 1];
      }
    } else {
      assert !IsDecimal(t) by {
        if ValorDecimal(t[0]).Some? {
          assert ValorDecimal(t[|t| - 1]).None?;
        }
      }
    }
  }

  /** The trim keeps a first character `int()` does not skip. */
  lemma RecorteConservaPrimero(s: string)
    requires |s| > 0 && !EspacioInt(s[0])
    ensures |RecorteInt(s)| > 0 && RecorteInt(s)[0] == s[0]
  {
    assert QuitarIzqInt(s) == s;
  }

  /** The trim keeps a last character `int()` does not skip. */
  lemma RecorteConservaUltimo(s: string)
    requires |s| > 0 && !EspacioInt(s[|s| - 1])
    ensures var r := RecorteInt(s); |r| > 0 && r[|r| - 1] == s[|s| - 1]
  {
    var l := QuitarIzqInt(s);
    assert |l| > 0 && l[|l| - 1] == s[|s| - 1];
    assert QuitarDerInt(l) == l;
  }

  /** A separator U+001C..U+001F at either end is not skipped, so `int()` raises. */
  lemma IntConSeparador(s: string)
    requires |s| > 0
    requires ('\U{001C}' <= s[0] <= '\U{001F}') || ('\U{001C}' <= s[|s| - 1] <= '\U{001F}')
    ensures IntPython(s) == None
  {
    if '\U{001C}' <= s[0] <= '\U{001F}' {
      RecorteConservaPrimero(s);
      assert ValorDecimal(s[0]).None?;
    } else {
      RecorteConservaUltimo(s);
      assert ValorDecimal(s[|s| - 1]).None?;
    }
    IntRecortadoRechaza(RecorteInt(s));
  }

  /** `int('\x1c5')` and `int('5\x1f')` raise. */
  lemma IntSeparadorEjemplos()
    ensures IntPython("\U{001C}5") == None
    ensures IntPython("5\U{001F}") == None
  {
    IntConSeparador("\U{001C}5");
    IntConSeparador("5\U{001F}");
  }

  /** Whitespace `int()` skips in front of text with no whitespace at its ends
      is dropped. */
  lemma IntEspacioDelante(c: char, t: string)
    requires EspacioInt(c) && |t| > 0 && !EspacioInt(t[0]) && !EspacioInt(t[|t| - 1])
    ensures IntPython([c] + t) == IntRecortado(t)
  {
    var s := [c] + t;
    assert s[1..] == t;
    assert QuitarIzqInt(t) == t;
    assert QuitarIzqInt(s) == t;
  }

  /** A next-line character U+0085 before the digit is skipped: `int('\x855')` is 5. */
  lemma IntSiguienteLinea()
    ensures IntPython("\U{0085}5") == Some(5)
  {
    assert "\U{0085}5" == ['\U{0085}'] + "5";
    IntEspacioDelante('\U{0085}', "5");
    IntDigitosCinco();
  }

  /** `int('5')` is 5. */
  lemma IntDigitosCinco()
    ensures IntRecortado("5") == Some(5)
  {
    var t := "5";
    DecimalSinSigno(t);
    ValorUnicodeAscii(t);
  }

  /** `int(str(n))` gives `n` back when `str(n)` has at most `MaxDigitosInt`
      digits; past that limit `str(n)` and `int()` both raise. */
  lemma IntDeDecimal(n: nat)
    ensures IntPython(Decimal(n)) == if |Decimal(n)| <= MaxDigitosInt then Some(n) else None
  {
    var d := Decimal(n);
    DecimalValor(n);
    ValorUnicodeAscii(d);
    assert IsDecimal(d) && EsDigitoAscii(d[0]) && EsDigitoAscii(d[|d| - 1]);
    IntDigitosAscii(d);
  }

  /** Decimal text that starts and ends with an ASCII digit is read as its
      digits' value, up to the digit limit. */
  lemma IntDigitosAscii(d: string)
    requires IsDecimal(d) && EsDigitoAscii(d[0]) && EsDigitoAscii(d[|d| - 1])
    ensures IntPython(d) == if |d| <= MaxDigitosInt then Some(ValorUnicode(d)) else None
  {
    IntSinBordes(d);
    DecimalSinSigno(d);
  }

  /** Text with no whitespace at either end is read as it stands. */
  lemma IntSinBordes(t: string)
    requires |t| > 0 && !EspacioInt(t[0]) && !EspacioInt(t[|t| - 1])
    ensures IntPython(t) == IntRecortado(t)
  {
    assert QuitarIzqInt(t) == t;
  }

  /** Unsigned decimal text is read as its digits' value, up to the digit limit. */
  lemma DecimalSinSigno(t: string)
    requires IsDecimal(t)
    ensures IntRecortado(t) == if |t| <= MaxDigitosInt then Some(ValorUnicode(t)) else None
  {
    assert ValorDecimal(t[0]).Some?;
  }

  /** A digit is neither whitespace nor a sign. */
  lemma DigitoNoEsEspacio(c: char)
    requires EsDigito(c)
    ensures !EsEspacio(c) && c != '+' && c != '-'
  {
  }

  /** `int()` of text that passes `isdigit`: the digits' value when they are
      decimal and within the limit, ValueError otherwise. */
  lemma IntDeDigitos(t: string)
    requires IsDigit(t)
    ensures IntPython(t) == if EnteroLegible(t) then Some(ValorUnicode(t)) else None
  {
    DigitoNoEsEspacio(t[0]);
    DigitoNoEsEspacio(t[|t| - 1]);
    IntSinBordes(t);
  }

  /** Unsigned decimal text is read as its digits' value; more than
      `MaxDigitosInt` digits raise ValueError. */
  lemma IntSinSigno(t: string)
    requires IsDecimal(t)
    ensures IntPython(t) == if |t| <= MaxDigitosInt then Some(ValorUnicode(t)) else None
  {
    IntDeDigitos(t);
  }

  /** 10 to the power `k`. */
  function Potencia10(k: nat): (p: nat)
    ensures p >= 1
  {
    if k == 0 then 1 else 10 * Potencia10(k - 1)
  }

  /** `k` decimal digits spell a number below 10^k. */
  lemma {:induction false} ValorUnicodeCota(s: string)
    requires forall i :: 0 <= i < |s| ==> ValorDecimal(s[i]).Some?
    ensures ValorUnicode(s) < Potencia10(|s|)
  {
    if |s| > 0 {
      ValorUnicodeCota(s[..|s| - 1]);
      assert ValorDecimal(s[|s| - 1]).value <= 9 by {
        var z := CeroDecimal(s[|s| - 1] as int);
      }
    }
  }

  /** A number below 10^k is written with at most `k` digits. */
  lemma {:induction false} DecimalLongitud(n: nat, k: nat)
    requires k >= 1 && n < Potencia10(k)
    ensures |Decimal(n)| <= k
  {
    if n >= 10 {
      assert k >= 2;
      DecimalLongitud(n / 10, k - 1);
    }
  }

  /** A positive number `int()` reads has at most `MaxDigitosInt` digits, so
      `str()` writes it back. */
  lemma IntAcotado(s: string)
    requires IntPython(s).Some? && IntPython(s).value > 0
    ensures |Decimal(IntPython(s).value)| <= MaxDigitosInt
  {
    var t := RecorteInt(s);
    var d := if t[0] == '+' || t[0] == '-' then t[1..] else t;
    assert EnteroLegible(d) && IntPython(s).value == ValorUnicode(d);
    ValorUnicodeCota(d);
    DecimalLongitud(ValorUnicode(d), |d|);
  }

  // ---------------------------------------------------------------------------
  // Routing

  const PrefijoProyecto: string := "/proyecto/"

  /** `'/proyecto/' + rest` splits on '/' into '', 'proyecto' and the pieces of `rest`. */
  lemma SplitProyecto(rest: string)
    ensures Split(PrefijoProyecto + rest, '/') == ["", "proyecto"] + Split(rest, '/')
  {
    assert PrefijoProyecto + rest == "" + ['/'] + ("proyecto" + ['/'] + rest);
    SplitPrefix("", '/', "proyecto" + ['/'] + rest);
    SplitPrefix("proyecto", '/', rest);
  }

  /** `path.split('/')[-1]` for a path under /proyecto/. */
  function Ultimo(path: string): string
    requires StartsWith(path, PrefijoProyecto)
  {
    var partes := Split(path[|PrefijoProyecto|..], '/');
    partes[|partes| - 1]
  }

  /** `path.split('/')[-2]` for a path under /proyecto/. */
  function Penultimo(path: string): string
    requires StartsWith(path, PrefijoProyecto)
  {
    var partes := Split(path[|PrefijoProyecto|..], '/');
    if |partes| >= 2 then partes[|partes| - 2] else "proyecto"
  }

  /** `Ultimo` and `Penultimo` are Python's `[-1]` and `[-2]` of the whole split. */
  lemma SegmentosComoPython(path: string)
    requires StartsWith(path, PrefijoProyecto)
    ensures var partes := Split(path, '/');
            |partes| >= 3 && Ultimo(path) == partes[|partes| - 1] && Penultimo(path) == partes[|partes| - 2]
  {
    assert path == PrefijoProyecto + path[|PrefijoProyecto|..];
    SplitProyecto(path[|PrefijoProyecto|..]);
  }

  /** Where a GET request goes. `ErrorValor` is the ValueError `int()` raises,
      which `do_GET` does not catch: the client gets no response. */
  datatype RutaGet =
    | Dashboard | Ayuda | VerProyecto(id: nat) | ExportarPrompt | ExportarCsv
    | AnalizarIa | Health | Estatico(path: string) | NoEncontrado(mensaje: string) | ErrorValor

  /** `do_GET` as written: a project page is reached when the last segment
      passes `isdigit`, and then `int()` converts it. */
  function RutearGet(path: string): (r: RutaGet)
    ensures StartsWith(path, PrefijoProyecto) ==>
              (r.VerProyecto? <==> EnteroLegible(Ultimo(path)))
              && (r.ErrorValor? <==> IsDigit(Ultimo(path)) && !EnteroLegible(Ultimo(path)))
              && (r.VerProyecto? ==> r.id == ValorUnicode(Ultimo(path)))
    ensures !StartsWith(path, PrefijoProyecto) ==> !r.VerProyecto? && !r.ErrorValor?
  {
    if path == "/" then Dashboard
    else if path == "/ayuda" then Ayuda
    else if StartsWith(path, PrefijoProyecto) then
      var seg := Ultimo(path);
      if IsDigit(seg) then
        if EnteroLegible(seg) then VerProyecto(ValorUnicode(seg)) else ErrorValor
      else NoEncontrado("Proyecto no encontrado")
    else if path == "/exportar-prompt" then ExportarPrompt
    else if path == "/exportar-csv" then ExportarCsv
    else if path == "/analizar-ia" then AnalizarIa
    else if path == "/health" then Health
    else if StartsWith(path, "/static/") then Estatico(path)
    else NoEncontrado("Página no encontrada")
  }

  /** `do_GET` with the test that `int()` needs: decimal digits no more than
      `MaxDigitosInt` of them, instead of `isdigit`. */
  function RutearGetCorregido(path: string): (r: RutaGet)
    ensures !r.ErrorValor?
    ensures r.VerProyecto? <==> StartsWith(path, PrefijoProyecto) && EnteroLegible(Ultimo(path))
  {
    if path == "/" then Dashboard
    else if path == "/ayuda" then Ayuda
    else if StartsWith(path, PrefijoProyecto) then
      var seg := Ultimo(path);
      if EnteroLegible(seg) then VerProyecto(ValorUnicode(seg)) else NoEncontrado("Proyecto no encontrado")
    else if path == "/exportar-prompt" then ExportarPrompt
    else if path == "/exportar-csv" then ExportarCsv
    else if path == "/analizar-ia" then AnalizarIa
    else if path == "/health" then Health
    else if StartsWith(path, "/static/") then Estatico(path)
    else NoEncontrado("Página no encontrada")
  }

  /** The correction changes nothing but the requests that crashed, which now get a 404. */
  lemma RutearGetCorregidoConserva(path: string)
    ensures RutearGet(path) != ErrorValor ==> RutearGetCorregido(path) == RutearGet(path)
    ensures RutearGet(path) == ErrorValor ==> RutearGetCorregido(path) == NoEncontrado("Proyecto no encontrado")
  {
  }

  /** `do_GET` under /proyecto/ is `isdigit` followed by `int()`: a project
      page for the number `int()` reads, and the ValueError when it raises. */
  lemma RutearGetComoPython(path: string)
    requires StartsWith(path, PrefijoProyecto)
    ensures var seg := Ultimo(path);
            && (RutearGet(path).VerProyecto? <==> IsDigit(seg) && IntPython(seg).Some?)
            && (RutearGet(path).VerProyecto? ==> IntPython(seg) == Some(RutearGet(path).id))
            && (RutearGet(path).ErrorValor? <==> IsDigit(seg) && IntPython(seg).None?)
  {
    var seg := Ultimo(path);
    if IsDigit(seg) {
      IntDeDigitos(seg);
    }
  }

  /** A last segment made of digits that are not all decimal makes `int()` raise. */
  lemma SegmentoNoDecimal(rest: string)
    requires '/' !in rest && IsDigit(rest) && !IsDecimal(rest)
    ensures RutearGet(PrefijoProyecto + rest) == ErrorValor
    ensures RutearGetCorregido(PrefijoProyecto + rest) == NoEncontrado("Proyecto no encontrado")
  {
    SplitNoSep(rest, '/');
    assert (PrefijoProyecto + rest)[|PrefijoProyecto|..] == rest;
  }

  /** '/proyecto/²' passes `isdigit`, so `int('²')` raises inside `do_GET`. */
  lemma SuperindiceSinRespuesta()
    ensures RutearGet(PrefijoProyecto + "\U{00B2}") == ErrorValor
    ensures RutearGetCorregido(PrefijoProyecto + "\U{00B2}") == NoEncontrado("Proyecto no encontrado")
  {
    var s := "\U{00B2}";
    assert |s| == 1 && s[0] == '\U{00B2}';
    assert !IsDecimal(s) by { assert ValorDecimal(s[0]).None?; }
    SegmentoNoDecimal(s);
  }

  /** '/proyecto/\U{2776}' (a dingbat negative circled one) passes `isdigit`
      without being decimal, so it makes `int()` raise as well. This is the
      string logic of `do_GET` only: `http.server` decodes the request line
      as Latin-1 and `urlparse` does not unquote, so no request delivers a
      character above U+00FF. */
  lemma DingbatSinRespuesta()
    ensures RutearGet(PrefijoProyecto + "\U{2776}") == ErrorValor
  {
    var s := "\U{2776}";
    assert |s| == 1 && s[0] == '\U{2776}';
    assert !IsDecimal(s) by { assert ValorDecimal(s[0]).None?; }
    assert IsDigit(s) by { assert DigitoNoDecimal(s[0]); }
    SegmentoNoDecimal(s);
  }

  /** A last segment of decimal digits from any script opens the project it
      spells; more than `MaxDigitosInt` of them make `int()` raise. */
  lemma SegmentoDecimal(rest: string)
    requires '/' !in rest && IsDecimal(rest)
    ensures RutearGet(PrefijoProyecto + rest) ==
              if |rest| <= MaxDigitosInt then VerProyecto(ValorUnicode(rest)) else ErrorValor
    ensures RutearGetCorregido(PrefijoProyecto + rest) ==
              if |rest| <= MaxDigitosInt then VerProyecto(ValorUnicode(rest)) else NoEncontrado("Proyecto no encontrado")
  {
    UltimoSegmento(rest);
    assert IsDigit(rest) by {
      forall i | 0 <= i < |rest| ensures EsDigito(rest[i]) {
        assert ValorDecimal(rest[i]).Some?;
      }
    }
  }

  /** The last segment of `/proyecto/<rest>` is `rest` when it holds no '/'. */
  lemma UltimoSegmento(rest: string)
    requires '/' !in rest
    ensures StartsWith(PrefijoProyecto + rest, PrefijoProyecto) && Ultimo(PrefijoProyecto + rest) == rest
  {
    SplitNoSep(rest, '/');
    assert (PrefijoProyecto + rest)[|PrefijoProyecto|..] == rest;
  }

  /** '/proyecto/' followed by 4301 ones passes `isdigit`, and `int()` raises
      on a string of more than 4300 digits: the client gets no response. */
  lemma SegmentoLargoSinRespuesta()
    ensures RutearGet(PrefijoProyecto + seq(MaxDigitosInt + 1, _ => '1')) == ErrorValor
    ensures RutearGetCorregido(PrefijoProyecto + seq(MaxDigitosInt + 1, _ => '1')) == NoEncontrado("Proyecto no encontrado")
  {
    var s := seq(MaxDigitosInt + 1, _ => '1');
    assert forall i :: 0 <= i < |s| ==> s[i] == '1';
    assert IsDecimal(s) by {
      forall i | 0 <= i < |s| ensures ValorDecimal(s[i]).Some? {
        assert EsDigitoAscii(s[i]);
      }
    }
    assert '/' !in s;
    SegmentoDecimal(s);
  }

  /** '/proyecto/\U{09E9}' (Bengali three) opens project 3. As for the dingbat,
      this is the string logic of `do_GET`; a request line never holds ৩. */
  lemma BengaliAbreProyecto()
    ensures RutearGet(PrefijoProyecto + "\U{09E9}") == VerProyecto(3)
  {
    var s := "\U{09E9}";
    assert |s| == 1 && s[0] == '\U{09E9}';
    assert ValorDecimal(s[0]) == Some(3);
    assert ValorUnicode(s) == 3 by {
      assert s[..0] == [];
    }
    SegmentoDecimal(s);
  }

  /** The page of project `n`, as the handlers redirect to it. */
  function Ubicacion(n: nat): (u: string)
    ensures StartsWith(u, PrefijoProyecto)
  {
    PrefijoProyecto + Decimal(n)
  }

  /** A redirect to `/proyecto/<n>` routes back to project `n` whenever `n`
      has at most `MaxDigitosInt` digits, as every id `int()` reads does;
      a longer one makes `int()` raise. */
  lemma UbicacionRutea(n: nat)
    ensures RutearGet(Ubicacion(n)) == if |Decimal(n)| <= MaxDigitosInt then VerProyecto(n) else ErrorValor
    ensures RutearGetCorregido(Ubicacion(n)) ==
              if |Decimal(n)| <= MaxDigitosInt then VerProyecto(n) else NoEncontrado("Proyecto no encontrado")
  {
    var d := Decimal(n);
    DecimalSinBarra(n);
    SplitNoSep(d, '/');
    assert Ubicacion(n)[|PrefijoProyecto|..] == d;
    DecimalValor(n);
    ValorUnicodeAscii(d);
  }

  /** Where a POST request goes. */
  datatype RutaPost =
    | NuevoProyecto | NuevaMetrica | ResponderDecision | IniciarCiclo
    | ActualizarProyecto(id: nat) | NoEncontradoPost | ErrorValorPost

  /** `do_POST` as written: the segment before '/actualizar' passes `isdigit`. */
  function RutearPost(path: string): (r: RutaPost)
    ensures r.ActualizarProyecto? <==>
              StartsWith(path, PrefijoProyecto) && EndsWith(path, "/actualizar") && path != "/proyecto/nuevo"
              && EnteroLegible(Penultimo(path))
    ensures r.ErrorValorPost? <==>
              StartsWith(path, PrefijoProyecto) && EndsWith(path, "/actualizar") && path != "/proyecto/nuevo"
              && IsDigit(Penultimo(path)) && !EnteroLegible(Penultimo(path))
  {
    if path == "/proyecto/nuevo" then NuevoProyecto
    else if path == "/metrica/nueva" then NuevaMetrica
    else if path == "/decisiones/responder" then ResponderDecision
    else if path == "/ciclo/iniciar" then IniciarCiclo
    else if StartsWith(path, PrefijoProyecto) && EndsWith(path, "/actualizar") then
      var seg := Penultimo(path);
      if IsDigit(seg) then
        if EnteroLegible(seg) then ActualizarProyecto(ValorUnicode(seg)) else ErrorValorPost
      else NoEncontradoPost
    else NoEncontradoPost
  }

  /** `do_POST` with the test `int()` needs (decimal digits within the limit)
      instead of `isdigit`. */
  function RutearPostCorregido(path: string): (r: RutaPost)
    ensures !r.ErrorValorPost?
    ensures RutearPost(path) != ErrorValorPost ==> r == RutearPost(path)
    ensures RutearPost(path) == ErrorValorPost ==> r == NoEncontradoPost
  {
    if path == "/proyecto/nuevo" then NuevoProyecto
    else if path == "/metrica/nueva" then NuevaMetrica
    else if path == "/decisiones/responder" then ResponderDecision
    else if path == "/ciclo/iniciar" then IniciarCiclo
    else if StartsWith(path, PrefijoProyecto) && EndsWith(path, "/actualizar") then
      var seg := Penultimo(path);
      if EnteroLegible(seg) then ActualizarProyecto(ValorUnicode(seg)) else NoEncontradoPost
    else NoEncontradoPost
  }

  /** The digits of `str(n)` hold no '/'. */
  lemma DecimalSinBarra(n: nat)
    ensures '/' !in Decimal(n)
  {
    var d := Decimal(n);
    forall i | 0 <= i < |d| ensures d[i] != '/' {
      assert EsDigitoAscii(d[i]);
    }
  }

  /** `seg/actualizar` splits on '/' into `seg` and "actualizar" when `seg` holds no '/'. */
  lemma SplitActualizar(seg: string)
    requires '/' !in seg
    ensures Split(seg + "/actualizar", '/') == [seg, "actualizar"]
  {
    var fin := "actualizar";
    assert seg + "/actualizar" == seg + ['/'] + fin;
    assert '/' !in fin;
    SplitDos(seg, '/', fin);
  }

  /** In `/proyecto/<seg>/actualizar` the segment before the last is `seg`. */
  lemma PenultimoActualizar(seg: string)
    requires '/' !in seg
    ensures var path := PrefijoProyecto + seg + "/actualizar";
            StartsWith(path, PrefijoProyecto) && EndsWith(path, "/actualizar") && Penultimo(path) == seg
  {
    var resto := seg + "/actualizar";
    var path := PrefijoProyecto + resto;
    assert PrefijoProyecto + seg + "/actualizar" == path;
    assert StartsWith(path, PrefijoProyecto) by {
      assert path[..|PrefijoProyecto|] == PrefijoProyecto;
    }
    assert EndsWith(path, "/actualizar") by {
      assert path[|path| - |"/actualizar"|..] == "/actualizar";
    }
    assert path[|PrefijoProyecto|..] == resto;
    SplitActualizar(seg);
  }

  /** A POST to '/proyecto/²/actualizar' passes `isdigit`, so `int('²')` raises
      inside `do_POST`; with `isdecimal` the path is not found. */
  lemma SuperindicePostSinRespuesta()
    ensures RutearPost(PrefijoProyecto + "\U{00B2}" + "/actualizar") == ErrorValorPost
    ensures RutearPostCorregido(PrefijoProyecto + "\U{00B2}" + "/actualizar") == NoEncontradoPost
  {
    var s := "\U{00B2}";
    assert |s| == 1 && s[0] == '\U{00B2}';
    assert '/' !in s;
    assert !IsDecimal(s) by { assert ValorDecimal(s[0]).None?; }
    assert IsDigit(s) by { assert DigitoNoDecimal(s[0]); }
    PenultimoActualizar(s);
  }

  /** `do_POST` on `/proyecto/<seg>/actualizar` is `isdigit` followed by
      `int()`: an update for the number `int()` reads, and the ValueError
      when it raises. */
  lemma RutearPostComoPython(seg: string)
    requires '/' !in seg
    ensures var r := RutearPost(PrefijoProyecto + seg + "/actualizar");
            && (r.ActualizarProyecto? <==> IsDigit(seg) && IntPython(seg).Some?)
            && (r.ActualizarProyecto? ==> IntPython(seg) == Some(r.id))
            && (r.ErrorValorPost? <==> IsDigit(seg) && IntPython(seg).None?)
  {
    PenultimoActualizar(seg);
    var path := PrefijoProyecto + seg + "/actualizar";
    assert path != "/proyecto/nuevo" by {
      assert |path| > |"/proyecto/nuevo"|;
    }
    if IsDigit(seg) {
      IntDeDigitos(seg);
    }
  }

  /** The form that updates project `n` posts to a path that routes to it,
      for every `n` of at most `MaxDigitosInt` digits. */
  lemma ActualizarRutea(n: nat)
    ensures RutearPost(Ubicacion(n) + "/actualizar") ==
              if |Decimal(n)| <= MaxDigitosInt then ActualizarProyecto(n) else ErrorValorPost
  {
    var d := Decimal(n);
    DecimalSinBarra(n);
    PenultimoActualizar(d);
    DecimalValor(n);
    ValorUnicodeAscii(d);
    assert Ubicacion(n) + "/actualizar" != "/proyecto/nuevo" by {
      assert |Ubicacion(n) + "/actualizar"| > |"/proyecto/nuevo"|;
    }
  }

  // ---------------------------------------------------------------------------
  // Handlers

  /** What a handler sends back. */
  datatype Respuesta = Redirigir(ubicacion: string) | ErrorHttp(codigo: nat)

  /** A row for `registrar_decision`; the text fields are passed as the form sent them. */
  datatype Decision = Decision(
    proyectoId: nat, tipo: Campo, justificacion: Campo, accionTomada: Campo, origen: string,
    razonRechazo: Option<Campo>)

  /** The outcome of `handle_responder_decision`: the response, the decision
      recorded and the state the project is moved to, if any. */
  datatype Efecto = Efecto(respuesta: Respuesta, decision: Option<Decision>, nuevoEstado: Option<Proyectos.Estado>)

  /** `int(data.get('proyecto_id', 0))`: Err when `int()` raises (a list
      raises TypeError, text that is not a number ValueError). */
  function ProyectoId(data: map<string, Campo>): (r: Result<int, string>)
    ensures "proyecto_id" !in data ==> r == Ok(0)
    ensures "proyecto_id" in data && data["proyecto_id"].Varios? ==> r.Err?
    ensures "proyecto_id" in data && data["proyecto_id"].Uno? ==>
              (r.Ok? <==> IntPython(data["proyecto_id"].valor).Some?)
              && (r.Ok? ==> r.value == IntPython(data["proyecto_id"].valor).value)
  {
    if "proyecto_id" !in data then Ok(0)
    else match data["proyecto_id"]
      case Varios(_) => Err("TypeError")
      case Uno(s) => var n := IntPython(s); if n.None? then Err("ValueError") else Ok(n.value)
  }

  /** The state an accepted suggestion moves the project to. */
  function EstadoPorDecision(tipo: Campo): (r: Option<Proyectos.Estado>)
    ensures r == Some(Proyectos.Killed) <==> tipo == Uno("kill")
    ensures r == Some(Proyectos.Winner) <==> tipo == Uno("scale")
    ensures r == Some(Proyectos.Paused) <==> tipo == Uno("pause")
    ensures r.None? <==> tipo != Uno("kill") && tipo != Uno("scale") && tipo != Uno("pause")
  {
    if tipo == Uno("kill") then Some(Proyectos.Killed)
    else if tipo == Uno("scale") then Some(Proyectos.Winner)
    else if tipo == Uno("pause") then Some(Proyectos.Paused)
    else None
  }

  /** Whether the INSERT of `registrar_decision` goes through: every bound
      field is a single value (a list cannot be bound), the action is one
      the CHECK constraint allows, and the project exists (foreign keys are
      switched on for every connection). */
  predicate InsercionAceptada(d: Decision, existentes: set<nat>)
  {
    && d.tipo.Uno? && d.justificacion.Uno? && d.accionTomada.Uno?
    && d.accionTomada.valor in Proyectos.AccionesValidas
    && (d.razonRechazo.Some? ==> d.razonRechazo.value.Uno?)
    && d.proyectoId in existentes
  }

  /** `handle_responder_decision`, given the ids of the stored projects: a
      project id that is not positive gets a 400 and records nothing; an
      INSERT the database refuses raises, which becomes a 500 with nothing
      recorded; otherwise the decision is recorded (with the rejection
      reason only for a rejected one), an accepted kill, scale or pause
      moves the project, and the client is sent to the project page. */
  function ResponderDecisionIa(data: map<string, Campo>, existentes: set<nat>): (e: Efecto)
    ensures e.respuesta == ErrorHttp(400) <==> ProyectoId(data).Ok? && ProyectoId(data).value <= 0
    ensures e.respuesta.Redirigir? <==>
              && ProyectoId(data).Ok? && ProyectoId(data).value > 0
              && ProyectoId(data).value in existentes
              && Leer(data, "tipo", "iterate").Uno? && Leer(data, "justificacion", "").Uno?
              && Leer(data, "accion", "aceptada").Uno?
              && Leer(data, "accion", "aceptada").valor in Proyectos.AccionesValidas
              && (Leer(data, "accion", "aceptada") == Uno("rechazada") ==> Leer(data, "razon_rechazo", "").Uno?)
    ensures e.respuesta.ErrorHttp? ==> e.respuesta.codigo in {400, 500} && e.decision.None? && e.nuevoEstado.None?
    ensures e.respuesta.Redirigir? ==>
              && e.decision.Some? && e.decision.value.proyectoId as int == ProyectoId(data).value
              && e.decision.value.accionTomada.Uno? && e.decision.value.accionTomada.valor in Proyectos.AccionesValidas
              && e.respuesta.ubicacion == Ubicacion(e.decision.value.proyectoId)
              && e.decision.value.origen == "ia"
              && (e.decision.value.razonRechazo.Some? <==> Leer(data, "accion", "aceptada") == Uno("rechazada"))
              && (e.nuevoEstado.Some? ==> Leer(data, "accion", "aceptada") == Uno("aceptada"))
              && (Leer(data, "accion", "aceptada") == Uno("aceptada") ==>
                    e.nuevoEstado == EstadoPorDecision(Leer(data, "tipo", "iterate")))
  {
    var pid := ProyectoId(data);
    if pid.Err? then Efecto(ErrorHttp(500), None, None)
    else if pid.value <= 0 then Efecto(ErrorHttp(400), None, None)
    else
      var tipo := Leer(data, "tipo", "iterate");
      var justificacion := Leer(data, "justificacion", "");
      var accion := Leer(data, "accion", "aceptada");
      var razon := Leer(data, "razon_rechazo", "");
      var decision := Decision(pid.value, tipo, justificacion, accion, "ia",
                               if accion == Uno("rechazada") then Some(razon) else None);
      if !InsercionAceptada(decision, existentes) then Efecto(ErrorHttp(500), None, None)
      else
        Efecto(Redirigir(Ubicacion(pid.value)), Some(decision),
               if accion == Uno("aceptada") then EstadoPorDecision(tipo) else None)
  }

  /** A `proyecto_id` of "\x1c5" (posted as `%1C5`) makes `int()` raise, so the
      handler answers 500 and records nothing. */
  lemma SeparadorEnIdDa500(data: map<string, Campo>, existentes: set<nat>)
    requires "proyecto_id" in data && data["proyecto_id"] == Uno("\U{001C}5")
    ensures ResponderDecisionIa(data, existentes) == Efecto(ErrorHttp(500), None, None)
  {
    IntSeparadorEjemplos();
  }

  /** A state an accepted decision asks for is always one the update accepts,
      and the redirect after any recorded decision routes back to the project. */
  lemma ResponderDecisionValida(data: map<string, Campo>, existentes: set<nat>)
    ensures var e := ResponderDecisionIa(data, existentes);
            && (e.nuevoEstado.Some? ==> Proyectos.TextoEstado(e.nuevoEstado.value) in Proyectos.EstadosValidos)
            && (e.respuesta.Redirigir? ==> RutearGet(e.respuesta.ubicacion) == VerProyecto(e.decision.value.proyectoId))
  {
    var e := ResponderDecisionIa(data, existentes);
    if e.nuevoEstado.Some? {
      Proyectos.ParseTextoEstado(e.nuevoEstado.value);
    }
    if e.respuesta.Redirigir? {
      IntAcotado(data["proyecto_id"].valor);
      UbicacionRutea(e.decision.value.proyectoId);
    }
  }

  /** `handle_actualizar_proyecto`: an empty `estado` gets a 400 and the table
      is left alone; otherwise the update runs, and a state outside the
      allowed six (or a repeated field) makes it raise, which becomes a 500. */
  method ActualizarProyectoHandler(tabla: Proyectos.TablaProyectos, pid: nat, data: map<string, Campo>)
    returns (resp: Respuesta)
    requires tabla.Valid()
    modifies tabla
    ensures tabla.Valid()
    ensures Leer(data, "estado", "") == Uno("") ==> resp == ErrorHttp(400) && tabla.filas == old(tabla.filas)
    ensures Leer(data, "estado", "").Varios? ==> resp == ErrorHttp(500) && tabla.filas == old(tabla.filas)
    ensures Leer(data, "estado", "").Uno? && Leer(data, "estado", "") != Uno("") ==>
              var s := Leer(data, "estado", "").valor;
              && (s in Proyectos.EstadosValidos ==>
                    resp == Redirigir(Ubicacion(pid))
                    && tabla.filas == Proyectos.ConEstado(old(tabla.filas), pid, Proyectos.ParseEstado(s).value))
              && (s !in Proyectos.EstadosValidos ==> resp == ErrorHttp(500) && tabla.filas == old(tabla.filas))
  {
    var estado := Leer(data, "estado", "");
    if estado == Uno("") {
      return ErrorHttp(400);
    }
    if estado.Varios? {
      return ErrorHttp(500);
    }
    var r := tabla.ActualizarEstadoProyecto(pid, estado.valor);
    if r.Err? {
      return ErrorHttp(500);
    }
    resp := Redirigir(Ubicacion(pid));
  }
}
