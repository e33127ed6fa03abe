/** The wrapper around the Gemini command-line tool (gemini_integration.py):
    the command it runs, the cleaning of the tool's output, and the shaping of
    the answer, with the JSON extraction of `ejecutar_con_json`. The subprocess
    is not run here: its outcome is an input, and so is `json.loads`, a partial
    parse from text to a value. */
module Gemini {
  import opened Valores
  import opened Texto

  // ---------------------------------------------------------------------------
  // The command line

  /** The argument vector of `ejecutar_prompt`: the program, `-y` to approve
      tool calls when the wrapper is in yolo mode, then `-p` and the prompt. */
  function Comando(yolo: bool, prompt: string): (cmd: seq<string>)
    ensures |cmd| == (if yolo then 4 else 3)
    ensures cmd[0] == "gemini"
    ensures cmd[|cmd| - 2..] == ["-p", prompt]
    ensures "-y" in cmd[..|cmd| - 2] <==> yolo
  {
    (if yolo then ["gemini", "-y"] else ["gemini"]) + ["-p", prompt]
  }

  // ---------------------------------------------------------------------------
  // Cleaning the output: `_limpiar_output`

  const MensajeYolo: string := "YOLO mode is enabled"
  const MensajeCredenciales: string := "Loaded cached credentials"
  const MensajeHooks: string := "Hook registry initialized"
  const MensajeAprobacion: string := "All tool calls will be automatically approved"

  /** The tool's own status messages, which are not part of the answer. */
  const MensajesSistema: seq<string> := [MensajeYolo, MensajeCredenciales, MensajeHooks, MensajeAprobacion]

  /** A line that carries one of the status messages. */
  predicate EsLineaSistema(linea: string, mensajes: seq<string>) {
    exists k :: 0 <= k < |mensajes| && Contains(linea, mensajes[k])
  }

  /** The lines the cleaning keeps: no status message, not blank. */
  predicate SeConserva(linea: string, mensajes: seq<string>) {
    !EsLineaSistema(linea, mensajes) && Strip(linea) != ""
  }

  /** The kept lines, in their order. */
  function Conservadas(lineas: seq<string>, mensajes: seq<string>): (r: seq<string>)
    ensures |r| <= |lineas|
    ensures forall k :: 0 <= k < |r| ==> SeConserva(r[k], mensajes) && r[k] in lineas
  {
    if |lineas| == 0 then []
    else
      var ultima := lineas[|lineas| - 1];
      assert lineas == lineas[..|lineas| - 1] + [ultima];
      Conservadas(lineas[..|lineas| - 1], mensajes) + (if SeConserva(ultima, mensajes) then [ultima] else [])
  }

  /** A line is kept exactly when it is one of the input lines and passes the filter. */
  lemma {:induction false} ConservadasMiembros(lineas: seq<string>, mensajes: seq<string>)
    ensures forall l :: l in Conservadas(lineas, mensajes) <==> l in lineas && SeConserva(l, mensajes)
  {
    if |lineas| > 0 {
      var previas := lineas[..|lineas| - 1];
      ConservadasMiembros(previas, mensajes);
      assert lineas == previas + [lineas[|lineas| - 1]];
    }
  }

  /** Keeping lines commutes with concatenation: the kept lines of a text come
      in the order the text has them. */
  lemma {:induction false} ConservadasConcat(a: seq<string>, b: seq<string>, mensajes: seq<string>)
    ensures Conservadas(a + b, mensajes) == Conservadas(a, mensajes) + Conservadas(b, mensajes)
  {
    if |b| > 0 {
      var u := b[|b| - 1];
      var cola := if SeConserva(u, mensajes) then [u] else [];
      assert (a + b)[..|a + b| - 1] == a + b[..|b| - 1];
      assert (a + b)[|a + b| - 1] == u;
      assert Conservadas(a + b, mensajes) == Conservadas(a + b[..|b| - 1], mensajes) + cola;
      assert Conservadas(b, mensajes) == Conservadas(b[..|b| - 1], mensajes) + cola;
      ConservadasConcat(a, b[..|b| - 1], mensajes);
    } else {
      assert a + b == a;
    }
  }

  /** Lines that are all kept come through whole. */
  lemma {:induction false} ConservadasTodas(lineas: seq<string>, mensajes: seq<string>)
    requires forall k :: 0 <= k < |lineas| ==> SeConserva(lineas[k], mensajes)
    ensures Conservadas(lineas, mensajes) == lineas
  {
    if |lineas| > 0 {
      var previas := lineas[..|lineas| - 1];
      assert forall k :: 0 <= k < |previas| ==> previas[k] == lineas[k];
      ConservadasTodas(previas, mensajes);
      assert SeConserva(lineas[|lineas| - 1], mensajes);
      assert previas + [lineas[|lineas| - 1]] == lineas;
    }
  }

  /** What `_limpiar_output` returns for the raw standard output. */
  function Limpio(raw: string, mensajes: seq<string>): string {
    Strip(Join(Conservadas(Split(Strip(raw), '\n'), mensajes), '\n'))
  }

  /** `_limpiar_output`: splits the stripped output into lines, skips the
      status lines and the blank ones, and joins and strips the rest. */
  method LimpiarOutput(raw: string) returns (r: string)
    ensures r == Limpio(raw, MensajesSistema)
  {
    var lineas := Split(Strip(raw), '\n');
    var limpias: seq<string> := [];
    for i := 0 to |lineas|
      invariant limpias == Conservadas(lineas[..i], MensajesSistema)
    {
      var linea := lineas[i];
      assert lineas[..i + 1] == lineas[..i] + [linea];
      assert lineas[..i + 1][..i] == lineas[..i];
      if EsLineaSistema(linea, MensajesSistema) {
        continue;
      }
      if Strip(linea) == "" {
        continue;
      }
      limpias := limpias + [linea];
    }
    assert lineas[..|lineas|] == lineas;
    r := Strip(Join(limpias, '\n'));
  }

  /** What `strip` leaves of line `k` of the kept lines once joined: a lone
      line is stripped, the first loses its leading and the last its trailing
      whitespace, and the others stay as they are. */
  function Recorte(ls: seq<string>, k: nat): string
    requires k < |ls|
  {
    if |ls| == 1 then Strip(ls[k])
    else if k == 0 then QuitarIzq(ls[k])
    else if k == |ls| - 1 then QuitarDer(ls[k])
    else ls[k]
  }

  /** The kept lines as `strip` leaves them once joined. */
  function Recortadas(ls: seq<string>): (r: seq<string>)
    ensures |r| == |ls|
    ensures forall k :: 0 <= k < |ls| ==> r[k] == Recorte(ls, k)
  {
    seq(|ls|, k requires 0 <= k < |ls| => Recorte(ls, k))
  }

  /** Dropping leading whitespace from a join of two or more lines only touches the first. */
  lemma IzqJoin(ls: seq<string>)
    requires |ls| >= 2 && !EnBlanco(ls[0])
    ensures QuitarIzq(Join(ls, '\n')) == Join(ls[0 := QuitarIzq(ls[0])], '\n')
  {
    var resto := Join(ls[1..], '\n');
    var a := ls[0 := QuitarIzq(ls[0])];
    assert Join(ls, '\n') == ls[0] + (['\n'] + resto);
    QuitarIzqConcat(ls[0], ['\n'] + resto);
    assert a[1..] == ls[1..];
  }

  /** Dropping trailing whitespace from a join of two or more lines only touches the last. */
  lemma DerJoin(a: seq<string>)
    requires |a| >= 2 && !EnBlanco(a[|a| - 1])
    ensures QuitarDer(Join(a, '\n')) == Join(a[|a| - 1 := QuitarDer(a[|a| - 1])], '\n')
  {
    var n := |a|;
    JoinLast(a, '\n');
    var cabeza := Join(a[..n - 1], '\n') + ['\n'];
    QuitarDerConcat(cabeza, a[n - 1]);
    var b := a[n - 1 := QuitarDer(a[n - 1])];
    JoinLast(b, '\n');
    assert b[..n - 1] == a[..n - 1];
  }

  /** With two or more lines, trimming touches only the first and the last. */
  lemma RecortadasVarias(ls: seq<string>)
    requires |ls| >= 2
    ensures Recortadas(ls) == ls[0 := QuitarIzq(ls[0])][|ls| - 1 := QuitarDer(ls[|ls| - 1])]
  {
    var n := |ls|;
    var r := Recortadas(ls);
    var u := ls[0 := QuitarIzq(ls[0])][n - 1 := QuitarDer(ls[n - 1])];
    forall k | 0 <= k < n ensures r[k] == u[k] {
      assert r[k] == Recorte(ls, k);
    }
  }

  /** Stripping the join of one line is stripping that line. */
  lemma StripJoinUna(ls: seq<string>)
    requires |ls| == 1
    ensures Strip(Join(ls, '\n')) == Join(Recortadas(ls), '\n')
  {
    assert Recortadas(ls) == [Strip(ls[0])] by {
      assert Recortadas(ls)[0] == Recorte(ls, 0);
    }
  }

  /** Stripping the join of two or more lines trims the first and the last. */
  lemma StripJoinVarias(ls: seq<string>)
    requires |ls| >= 2 && !EnBlanco(ls[0]) && !EnBlanco(ls[|ls| - 1])
    ensures Strip(Join(ls, '\n')) == Join(Recortadas(ls), '\n')
  {
    var n := |ls|;
    var a := ls[0 := QuitarIzq(ls[0])];
    IzqJoin(ls);
    assert a[n - 1] == ls[n - 1];
    DerJoin(a);
    RecortadasVarias(ls);
  }

  /** Stripping a join of non-blank lines only trims its two ends. */
  lemma StripJoin(ls: seq<string>)
    requires forall k :: 0 <= k < |ls| ==> !EnBlanco(ls[k])
    ensures Strip(Join(ls, '\n')) == Join(Recortadas(ls), '\n')
  {
    if |ls| == 1 {
      StripJoinUna(ls);
    } else if |ls| >= 2 {
      StripJoinVarias(ls);
    }
  }

  /** A piece of a line without status messages has none either. */
  lemma SinSistemaTrozo(x: string, a: nat, b: nat, mensajes: seq<string>)
    requires a <= b <= |x| && !EsLineaSistema(x, mensajes)
    ensures !EsLineaSistema(x[a..b], mensajes)
  {
    forall k | 0 <= k < |mensajes| ensures !Contains(x[a..b], mensajes[k]) {
      SinEnTrozo(x, a, b, mensajes[k]);
    }
  }

  /** A piece of a line without a newline has none either. */
  lemma SinSaltoTrozo(x: string, a: nat, b: nat)
    requires a <= b <= |x| && '\n' !in x
    ensures '\n' !in x[a..b]
  {
    forall i | 0 <= i < b - a ensures x[a..b][i] != '\n' {
      assert x[a..b][i] == x[a + i];
    }
  }

  /** A line that is kept and holds no newline: what the cleaning joins. */
  predicate LineaLimpia(l: string, mensajes: seq<string>) {
    SeConserva(l, mensajes) && '\n' !in l
  }

  /** A string that starts or ends with a character other than whitespace has a non-empty strip. */
  lemma NoBlancoStrip(r: string)
    requires r != [] && (!EsEspacio(r[0]) || !EsEspacio(r[|r| - 1]))
    ensures Strip(r) != ""
  {
    StripIsSlice(r);
    assert !EnBlanco(r);
  }

  /** A kept line is not blank. */
  lemma ConservadaNoBlanca(x: string, mensajes: seq<string>)
    requires SeConserva(x, mensajes)
    ensures !EnBlanco(x)
  {
    StripIsSlice(x);
  }

  /** A piece of a clean line that does not start or end with whitespace is a clean line. */
  lemma TrozoLimpio(x: string, a: nat, b: nat, mensajes: seq<string>)
    requires a < b <= |x| && LineaLimpia(x, mensajes)
    requires !EsEspacio(x[a]) || !EsEspacio(x[b - 1])
    ensures LineaLimpia(x[a..b], mensajes)
  {
    var r := x[a..b];
    assert '\n' !in r by { SinSaltoTrozo(x, a, b); }
    assert !EsLineaSistema(r, mensajes) by { SinSistemaTrozo(x, a, b, mensajes); }
    assert Strip(r) != "" by {
      assert r[0] == x[a] && r[|r| - 1] == x[b - 1];
      NoBlancoStrip(r);
    }
  }

  /** Trimming the left end of a clean line leaves a clean line. */
  lemma IzqConserva(x: string, mensajes: seq<string>)
    requires LineaLimpia(x, mensajes)
    ensures LineaLimpia(QuitarIzq(x), mensajes)
  {
    ConservadaNoBlanca(x, mensajes);
    var k := PrimerNoEspacio(x, 0);
    assert k < |x|;
    assert x[k..|x|] == x[k..];
    TrozoLimpio(x, k, |x|, mensajes);
  }

  /** Trimming the right end of a clean line leaves a clean line. */
  lemma DerConserva(x: string, mensajes: seq<string>)
    requires LineaLimpia(x, mensajes)
    ensures LineaLimpia(QuitarDer(x), mensajes)
  {
    ConservadaNoBlanca(x, mensajes);
    var k := FinNoEspacio(x, |x|);
    assert k > 0;
    assert x[0..k] == x[..k];
    TrozoLimpio(x, 0, k, mensajes);
  }

  /** Trimming again changes nothing. */
  lemma RecortadasIdempotente(ls: seq<string>)
    ensures Recortadas(Recortadas(ls)) == Recortadas(ls)
  {
    var r := Recortadas(ls);
    forall k | 0 <= k < |ls| ensures Recorte(r, k) == r[k] {
      if |ls| == 1 {
        StripIdempotent(ls[k]);
      } else if k == 0 {
        QuitarIzqIdempotente(ls[k]);
      } else if k == |ls| - 1 {
        QuitarDerIdempotente(ls[k]);
      }
    }
  }

  /** The trimmed lines are still clean lines. */
  lemma RecortadasConserva(ls: seq<string>, mensajes: seq<string>)
    requires forall k :: 0 <= k < |ls| ==> LineaLimpia(ls[k], mensajes)
    ensures forall k :: 0 <= k < |ls| ==> LineaLimpia(Recortadas(ls)[k], mensajes)
  {
    forall k | 0 <= k < |ls| ensures LineaLimpia(Recorte(ls, k), mensajes) {
      if |ls| == 1 {
        IzqConserva(ls[k], mensajes);
        DerConserva(QuitarIzq(ls[k]), mensajes);
      } else if k == 0 {
        IzqConserva(ls[k], mensajes);
      } else if k == |ls| - 1 {
        DerConserva(ls[k], mensajes);
      }
    }
  }

  /** The kept lines of a split hold no newline. */
  lemma ConservadasLimpias(partes: seq<string>, mensajes: seq<string>)
    requires forall k :: 0 <= k < |partes| ==> '\n' !in partes[k]
    ensures forall k :: 0 <= k < |Conservadas(partes, mensajes)| ==> LineaLimpia(Conservadas(partes, mensajes)[k], mensajes)
  {
    var ls := Conservadas(partes, mensajes);
    forall k | 0 <= k < |ls| ensures '\n' !in ls[k] {
      var j :| 0 <= j < |partes| && partes[j] == ls[k];
    }
  }

  /** Stripping a join of clean lines is joining their trimmed forms. */
  lemma StripJoinLimpias(ls: seq<string>, mensajes: seq<string>)
    requires forall k :: 0 <= k < |ls| ==> LineaLimpia(ls[k], mensajes)
    ensures Strip(Join(ls, '\n')) == Join(Recortadas(ls), '\n')
  {
    forall k | 0 <= k < |ls| ensures !EnBlanco(ls[k]) {
      ConservadaNoBlanca(ls[k], mensajes);
    }
    StripJoin(ls);
  }

  /** The cleaned text is the join of the trimmed kept lines, and splitting it
      again gives those lines back. */
  lemma LimpioComoLineas(raw: string, mensajes: seq<string>)
    ensures var ls := Conservadas(Split(Strip(raw), '\n'), mensajes);
            && (ls == [] ==> Limpio(raw, mensajes) == "")
            && (ls != [] ==> Limpio(raw, mensajes) == Join(Recortadas(ls), '\n')
                             && Split(Limpio(raw, mensajes), '\n') == Recortadas(ls)
                             && forall k :: 0 <= k < |ls| ==> LineaLimpia(Recortadas(ls)[k], mensajes))
  {
    var ls := Conservadas(Split(Strip(raw), '\n'), mensajes);
    assert forall k :: 0 <= k < |ls| ==> LineaLimpia(ls[k], mensajes) by {
      ConservadasLimpias(Split(Strip(raw), '\n'), mensajes);
    }
    assert Limpio(raw, mensajes) == Join(Recortadas(ls), '\n') by {
      StripJoinLimpias(ls, mensajes);
    }
    if ls != [] {
      var rs := Recortadas(ls);
      assert forall k :: 0 <= k < |rs| ==> LineaLimpia(rs[k], mensajes) by {
        RecortadasConserva(ls, mensajes);
      }
      assert Split(Join(rs, '\n'), '\n') == rs by {
        SplitJoin(rs, '\n');
      }
    }
  }

  /** The empty line carries no status message when no message is empty. */
  lemma VacioNoEsSistema(mensajes: seq<string>)
    requires forall k :: 0 <= k < |mensajes| ==> mensajes[k] != ""
    ensures !EsLineaSistema("", mensajes)
  {
    forall k | 0 <= k < |mensajes| ensures !Contains("", mensajes[k]) {
      ContainsIff("", mensajes[k]);
    }
  }

  /** Every member of a sequence of clean lines is a kept line. */
  lemma LimpiasSeConservan(rs: seq<string>, mensajes: seq<string>)
    requires forall k :: 0 <= k < |rs| ==> LineaLimpia(rs[k], mensajes)
    ensures forall l :: l in rs ==> SeConserva(l, mensajes)
  {
    forall l | l in rs ensures SeConserva(l, mensajes) {
      var k :| 0 <= k < |rs| && rs[k] == l;
    }
  }

  /** No line of the cleaned text carries a status message, and when the
      text is not empty none of its lines is blank. */
  lemma LimpioSinSistema(raw: string, mensajes: seq<string>)
    requires forall k :: 0 <= k < |mensajes| ==> mensajes[k] != ""
    ensures forall l :: l in Split(Limpio(raw, mensajes), '\n') ==> !EsLineaSistema(l, mensajes)
    ensures Limpio(raw, mensajes) != "" ==> forall l :: l in Split(Limpio(raw, mensajes), '\n') ==> Strip(l) != ""
  {
    LimpioComoLineas(raw, mensajes);
    var ls := Conservadas(Split(Strip(raw), '\n'), mensajes);
    if ls == [] {
      assert Split(Limpio(raw, mensajes), '\n') == [""];
      VacioNoEsSistema(mensajes);
    } else {
      LimpiasSeConservan(Recortadas(ls), mensajes);
    }
  }

  /** The cleaned text has no whitespace at either end. */
  lemma LimpioSinBordes(raw: string, mensajes: seq<string>)
    ensures var r := Limpio(raw, mensajes);
            r == "" || (!EsEspacio(r[0]) && !EsEspacio(r[|r| - 1]))
  {
    var j := Join(Conservadas(Split(Strip(raw), '\n'), mensajes), '\n');
    assert Limpio(raw, mensajes) == Strip(j);
    StripBordes(j);
  }

  /** Cleaning twice is cleaning once. */
  lemma LimpioIdempotente(raw: string, mensajes: seq<string>)
    ensures Limpio(Limpio(raw, mensajes), mensajes) == Limpio(raw, mensajes)
  {
    LimpioComoLineas(raw, mensajes);
    var ls := Conservadas(Split(Strip(raw), '\n'), mensajes);
    var r := Limpio(raw, mensajes);
    if ls == [] {
      assert Split(Strip(r), '\n') == [""];
      assert Conservadas([""], mensajes) == [];
    } else {
      var rs := Recortadas(ls);
      assert Strip(r) == r by {
        StripJoinLimpias(rs, mensajes);
        RecortadasIdempotente(ls);
      }
      assert Conservadas(rs, mensajes) == rs by {
        ConservadasTodas(rs, mensajes);
      }
    }
  }

  // ---------------------------------------------------------------------------
  // Answer shaping: `ejecutar_prompt` and `ejecutar_con_json`

  /** How the subprocess ended: it exited with a code and its two output
      streams, it timed out, or starting it raised. */
  datatype Proceso =
    | Terminado(codigo: int, stdout: string, stderr: string)
    | Agotado
    | Excepcion(mensaje: string)

  /** What the JSON step adds: the parsed value, or the parse error. */
  datatype ExtraJson = Parseado(datos: Valor) | NoParseado(parseError: string)

  /** The result dict: `success`, `respuesta`, `error`, `stderr`, and, once
      `ejecutar_con_json` has looked at a successful answer, `json` with
      `respuesta_parseada` (None while those keys are absent). */
  datatype RespuestaCli = RespuestaCli(
    success: bool,
    respuesta: string,
    error: Option<string>,
    stderr: string,
    json: Option<ExtraJson>)

  /** `ejecutar_prompt` once the subprocess has ended: success exactly when it
      exited with 0, and then the answer is the cleaned standard output. */
  function EjecutarPrompt(proceso: Proceso, timeout: nat): (r: RespuestaCli)
    ensures r.success <==> proceso.Terminado? && proceso.codigo == 0
    ensures r.success ==> r.respuesta == Limpio(proceso.stdout, MensajesSistema) && r.error.None?
    ensures !r.success ==> r.respuesta == "" && r.error.Some?
    ensures r.json.None?
  {
    match proceso
    case Terminado(codigo, stdout, stderr) =>
      if codigo == 0 then RespuestaCli(true, Limpio(stdout, MensajesSistema), None, stderr, None)
      else RespuestaCli(false, "", Some(stderr), stderr, None)
    case Agotado =>
      RespuestaCli(false, "", Some("Timeout después de " + Decimal(timeout) + " segundos"), "", None)
    case Excepcion(mensaje) =>
      RespuestaCli(false, "", Some(mensaje), "", None)
  }

  const InstruccionJson: string :=
    "\n\nIMPORTANTE: Retorna tu respuesta ÚNICAMENTE en formato JSON válido, sin texto adicional antes o después.\n"

  /** The prompt `ejecutar_con_json` sends: the caller's prompt, then the instruction. */
  function PromptJson(prompt: string): (r: string)
    ensures StartsWith(r, prompt) && EndsWith(r, InstruccionJson)
    ensures |r| == |prompt| + |InstruccionJson|
  {
    prompt + InstruccionJson
  }

  const FenceJson: string := "```json"
  const Fence: string := "```"

  /** The raw text after the first `abre` up to the next fence, as written:
      when no fence follows, `find` gives -1 and the slice ending at -1 stops
      one character short of the end. */
  function TrozoFences(s: string, abre: string): string
    requires Contains(s, abre)
  {
    var inicio := Find(s, abre, 0) + |abre|;
    Rebanada(s, inicio, Find(s, Fence, inicio))
  }

  /** The same piece, read to the end of the text when no closing fence follows. */
  function TrozoFencesCorregido(s: string, abre: string): string
    requires Contains(s, abre)
  {
    var inicio := Find(s, abre, 0) + |abre|;
    var fin := Find(s, Fence, inicio);
    s[inicio..if fin < 0 then |s| else fin]
  }

  /** The text `ejecutar_con_json` hands to `json.loads`, as written. */
  function ExtraerJson(s: string): string {
    if Contains(s, FenceJson) then Strip(TrozoFences(s, FenceJson))
    else if Contains(s, Fence) then Strip(TrozoFences(s, Fence))
    else s
  }

  /** The extraction with a missing closing fence read as "to the end". */
  function ExtraerJsonCorregido(s: string): string {
    if Contains(s, FenceJson) then Strip(TrozoFencesCorregido(s, FenceJson))
    else if Contains(s, Fence) then Strip(TrozoFencesCorregido(s, Fence))
    else s
  }

  /** `abre` first occurs at `p`: the text contains it and `find` returns `p`. */
  lemma AperturaEn(s: string, abre: string, p: nat)
    requires OccursAt(s, abre, p) && forall i :: 0 <= i < p ==> !OccursAt(s, abre, i)
    ensures Contains(s, abre) && Find(s, abre, 0) == p
  {
    FindEn(s, abre, 0, p);
  }

  /** The first fence from `d` on is at `q`. */
  lemma CierreEn(s: string, d: nat, q: nat)
    requires d <= q && OccursAt(s, Fence, q)
    requires forall i :: d <= i < q ==> !OccursAt(s, Fence, i)
    ensures Find(s, Fence, d) == q
  {
    FindEn(s, Fence, d, q);
  }

  /** No fence occurs from `d` on, so the search for the closing fence gives -1. */
  lemma SinFenceDesde(s: string, d: nat)
    requires forall i :: d <= i ==> !OccursAt(s, Fence, i)
    ensures Find(s, Fence, d) == -1
  {
    FindNinguna(s, Fence, d);
  }

  /** With a closing fence the piece is the text strictly between the first
      opening fence and the first closing fence after it, and the code as
      written agrees with the correction. */
  lemma ExtraerConCierre(s: string, abre: string, p: nat, q: nat)
    requires OccursAt(s, abre, p) && forall i :: 0 <= i < p ==> !OccursAt(s, abre, i)
    requires p + |abre| <= q && OccursAt(s, Fence, q)
    requires forall i :: p + |abre| <= i < q ==> !OccursAt(s, Fence, i)
    ensures Contains(s, abre)
    ensures TrozoFencesCorregido(s, abre) == s[p + |abre|..q]
    ensures TrozoFences(s, abre) == TrozoFencesCorregido(s, abre)
  {
    AperturaEn(s, abre, p);
    CierreEn(s, p + |abre|, q);
  }

  /** Without a closing fence the corrected piece reads to the end, while the
      code as written loses the last character (or everything, when the
      opening fence ends the text). */
  lemma ExtraerSinCierre(s: string, abre: string, p: nat)
    requires OccursAt(s, abre, p) && forall i :: 0 <= i < p ==> !OccursAt(s, abre, i)
    requires forall i :: p + |abre| <= i ==> !OccursAt(s, Fence, i)
    ensures Contains(s, abre)
    ensures TrozoFencesCorregido(s, abre) == s[p + |abre|..]
    ensures p + |abre| < |s| ==> TrozoFences(s, abre) == s[p + |abre|..|s| - 1]
    ensures p + |abre| == |s| ==> TrozoFences(s, abre) == []
  {
    AperturaEn(s, abre, p);
    SinFenceDesde(s, p + |abre|);
    assert s[p + |abre|..|s|] == s[p + |abre|..];
  }

  /** Nothing in `FenceJson + cuerpo` closes the fence when `cuerpo` holds none. */
  lemma SinCierreTras(cuerpo: string)
    requires !Contains(cuerpo, Fence)
    ensures forall i :: |FenceJson| <= i ==> !OccursAt(FenceJson + cuerpo, Fence, i)
  {
    var s := FenceJson + cuerpo;
    ContainsIff(cuerpo, Fence);
    forall i | |FenceJson| <= i ensures !OccursAt(s, Fence, i) {
      if OccursAt(s, Fence, i) {
        assert s[i..i + |Fence|] == cuerpo[i - |FenceJson|..i - |FenceJson| + |Fence|];
        assert OccursAt(cuerpo, Fence, i - |FenceJson|);
      }
    }
  }

  /** An answer that opens a JSON fence and never closes it: the code as
      written drops the last character of the body, the correction keeps it. */
  lemma FenceAbiertaAsiEscrito(cuerpo: string)
    requires |cuerpo| > 0 && !Contains(cuerpo, Fence)
    ensures ExtraerJson(FenceJson + cuerpo) == Strip(cuerpo[..|cuerpo| - 1])
    ensures ExtraerJsonCorregido(FenceJson + cuerpo) == Strip(cuerpo)
  {
    var s := FenceJson + cuerpo;
    var n := |FenceJson|;
    assert OccursAt(s, FenceJson, 0) by {
      assert s[0..n] == FenceJson;
    }
    SinCierreTras(cuerpo);
    ExtraerSinCierre(s, FenceJson, 0);
    assert TrozoFences(s, FenceJson) == cuerpo[..|cuerpo| - 1] by {
      assert s[n..|s| - 1] == cuerpo[..|cuerpo| - 1];
    }
    assert TrozoFencesCorregido(s, FenceJson) == cuerpo by {
      assert s[n..] == cuerpo;
    }
  }

  /** "```json{}": the code as written hands "{" to the parser, the
      correction the whole "{}". */
  lemma FenceAbiertaEjemplo()
    ensures ExtraerJson(FenceJson + "{}") == "{"
    ensures ExtraerJsonCorregido(FenceJson + "{}") == "{}"
  {
    var cuerpo := "{}";
    assert !Contains(cuerpo, Fence) by {
      ContainsIff(cuerpo, Fence);
    }
    assert Strip(cuerpo[..1]) == "{" by {
      assert cuerpo[..1] == "{";
      StripSinEspacios("{");
    }
    assert Strip(cuerpo) == cuerpo by {
      StripSinEspacios(cuerpo);
    }
    FenceAbiertaAsiEscrito(cuerpo);
  }

  /** The raw piece between an opening fence and the next fence is a piece
      of the text and holds no fence. */
  lemma TrozoSinFence(s: string, abre: string)
    requires Contains(s, abre)
    ensures Contains(s, TrozoFencesCorregido(s, abre))
    ensures !Contains(TrozoFencesCorregido(s, abre), Fence)
  {
    var inicio := Find(s, abre, 0) + |abre|;
    var f := Find(s, Fence, inicio);
    var fin := if f < 0 then |s| else f;
    var t := s[inicio..fin];
    assert TrozoFencesCorregido(s, abre) == t;
    TrozoContenido(s, inicio, fin);
    assert !Contains(t, Fence) by {
      ContainsIff(t, Fence);
      assert t == s[..fin][inicio..];
      forall i | 0 <= i ensures !OccursAt(t, Fence, i) {
        OccursAtSufijo(s[..fin], inicio, Fence, i);
        OccursAtPrefijo(s, fin, Fence, inicio + i);
      }
    }
  }

  /** A slice `r` of a fence-free piece `t` of `s` is again a fence-free piece of `s`. */
  lemma TrozoDeTrozo(s: string, t: string, r: string, a: nat)
    requires Contains(s, t) && !Contains(t, Fence)
    requires a + |r| <= |t| && r == t[a..a + |r|]
    ensures Contains(s, r) && !Contains(r, Fence)
  {
    var k := Find(s, t, 0);
    assert OccursAt(s, t, k);
    SliceDeSlice(s, k, k + |t|, a, a + |r|);
    TrozoContenido(s, k + a, k + a + |r|);
    SinEnTrozo(t, a, a + |r|, Fence);
  }

  /** Stripping keeps a piece of `s` a piece of `s`, and adds no fence. */
  lemma StripTrozo(s: string, t: string)
    requires Contains(s, t) && !Contains(t, Fence)
    ensures Contains(s, Strip(t)) && !Contains(Strip(t), Fence)
  {
    StripEsTrozo(t);
    TrozoDeTrozo(s, t, Strip(t), InicioStrip(t));
  }

  /** The extracted text is a piece of the answer, and when the answer has a
      fence the piece holds none. */
  lemma ExtraidoEsTrozo(s: string)
    ensures Contains(s, ExtraerJsonCorregido(s))
    ensures Contains(s, Fence) ==> !Contains(ExtraerJsonCorregido(s), Fence)
  {
    if Contains(s, FenceJson) {
      TrozoSinFence(s, FenceJson);
      StripTrozo(s, TrozoFencesCorregido(s, FenceJson));
    } else if Contains(s, Fence) {
      TrozoSinFence(s, Fence);
      StripTrozo(s, TrozoFencesCorregido(s, Fence));
    } else {
      TrozoContenido(s, 0, |s|);
      assert s[0..|s|] == s;
    }
  }

  /** `ejecutar_con_json` once `ejecutar_prompt` has answered: a failure is
      returned unchanged; a success gains the parse of the text extracted as
      written, or the parse error. */
  function EjecutarConJson(resultado: RespuestaCli, loads: string -> Result<Valor, string>): (r: RespuestaCli)
    ensures !resultado.success ==> r == resultado
    ensures resultado.success ==>
              && r.json.Some?
              && r == resultado.(json := r.json)
              && (r.json.value.Parseado? <==> loads(ExtraerJson(resultado.respuesta)).Ok?)
              && (r.json.value.Parseado? ==> r.json.value.datos == loads(ExtraerJson(resultado.respuesta)).value)
  {
    if !resultado.success then resultado
    else
      match loads(ExtraerJson(resultado.respuesta))
      case Ok(datos) => resultado.(json := Some(Parseado(datos)))
      case Err(e) => resultado.(json := Some(NoParseado(e)))
  }

  /** The same step reading an unclosed fence to the end of the answer. */
  function EjecutarConJsonCorregido(resultado: RespuestaCli, loads: string -> Result<Valor, string>): (r: RespuestaCli)
    ensures !resultado.success ==> r == resultado
    ensures resultado.success ==>
              && r.json.Some?
              && r == resultado.(json := r.json)
              && (r.json.value.Parseado? <==> loads(ExtraerJsonCorregido(resultado.respuesta)).Ok?)
              && (r.json.value.Parseado? ==> r.json.value.datos == loads(ExtraerJsonCorregido(resultado.respuesta)).value)
  {
    if !resultado.success then resultado
    else
      match loads(ExtraerJsonCorregido(resultado.respuesta))
      case Ok(datos) => resultado.(json := Some(Parseado(datos)))
      case Err(e) => resultado.(json := Some(NoParseado(e)))
  }

  /** A successful answer "```json{}" with a parser that rejects "{" and
      reads "{}": as written the answer is reported as not JSON, the
      correction parses it. */
  lemma FenceAbiertaSinParseo(resultado: RespuestaCli, loads: string -> Result<Valor, string>)
    requires resultado.success && resultado.respuesta == FenceJson + "{}"
    requires loads("{").Err? && loads("{}").Ok?
    ensures EjecutarConJson(resultado, loads).json == Some(NoParseado(loads("{").error))
    ensures EjecutarConJsonCorregido(resultado, loads).json == Some(Parseado(loads("{}").value))
  {
    FenceAbiertaEjemplo();
  }

  /** The answer is parsed only after a successful run; a failed run never
      carries a parsed value. */
  lemma ParseadoSoloConExito(proceso: Proceso, timeout: nat, loads: string -> Result<Valor, string>)
    ensures var r := EjecutarConJson(EjecutarPrompt(proceso, timeout), loads);
            r.json.Some? <==> proceso.Terminado? && proceso.codigo == 0
  {
  }
}
