/** The optional LLM layer (sistema_90d/integracion_ia.py): which provider is
    used, what an automatic analysis returns, and how the reply text is cut out
    of a Markdown code block and parsed. The SDK calls themselves are a
    parameter `llamada` (the reply text, or the text of the exception), and
    `json.loads` is the partial parser `loads`. */
module IntegracionIa {
  import opened Valores
  import opened Texto
  import Gemini

  datatype Proveedor = Anthropic | OpenAI | Manual

  /** The provider name as it appears in the returned dictionaries. */
  function NombreProveedor(p: Proveedor): string {
    match p
    case Anthropic => "anthropic"
    case OpenAI => "openai"
    case Manual => "manual"
  }

  /** An environment key is usable when it is set and not empty (Python truthiness). */
  predicate ClaveUsable(clave: Option<string>) {
    clave.Some? && clave.value != ""
  }

  /** `_detectar_proveedor`: Claude when its key and SDK are both there, then
      OpenAI likewise, and the copy/paste mode otherwise. */
  function DetectarProveedor(claveClaude: Option<string>, hayAnthropic: bool,
                             claveOpenai: Option<string>, hayOpenai: bool): (p: Proveedor)
    ensures p == Anthropic <==> ClaveUsable(claveClaude) && hayAnthropic
    ensures p == OpenAI <==> !(ClaveUsable(claveClaude) && hayAnthropic) && ClaveUsable(claveOpenai) && hayOpenai
    ensures p == Manual <==> !(ClaveUsable(claveClaude) && hayAnthropic) && !(ClaveUsable(claveOpenai) && hayOpenai)
  {
    if ClaveUsable(claveClaude) && hayAnthropic then Anthropic
    else if ClaveUsable(claveOpenai) && hayOpenai then OpenAI
    else Manual
  }

  const MensajeManual: string := "No se detectó API Key o SDK instalado. Usa el modo copy/paste."
  const MensajeNoParseado: string := "Respuesta recibida pero no se pudo parsear como JSON estructurado."

  /** The dictionaries `analizar_automaticamente` returns, by their `modo`. */
  datatype Analisis =
    | ModoManual(prompt: string, mensaje: string)
    | ModoError(mensaje: string, prompt: string)
    | Automatico(proveedor: Proveedor, datos: Option<Valor>, textoCompleto: string, aviso: Option<string>)

  /** The text `_procesar_respuesta_ia` tries to parse: the stripped first
      piece of the first "```json" block, else of the first bare block, else
      the whole reply. Each piece is `split(...)[1].split("```")[0]`. */
  function ExtraerIa(texto: string): string {
    if Contains(texto, Gemini.FenceJson) then
      Strip(Antes(Antes(Tras(texto, Gemini.FenceJson), Gemini.FenceJson), Gemini.Fence))
    else if Contains(texto, Gemini.Fence) then
      Strip(Antes(Antes(Tras(texto, Gemini.Fence), Gemini.Fence), Gemini.Fence))
    else texto
  }

  /** The parse is attempted only when the stripped text opens an object or a list. */
  predicate PareceJson(s: string) {
    var t := Strip(s);
    |t| > 0 && (t[0] == '{' || t[0] == '[')
  }

  /** `_procesar_respuesta_ia`: always an automatic result with the full
      reply; `datos` when the extracted text looks like JSON and parses, and
      the fallback message exactly when there is no `datos`. */
  function ProcesarRespuestaIa(texto: string, proveedor: Proveedor, loads: string -> Result<Valor, string>): (r: Analisis)
    ensures r.Automatico? && r.proveedor == proveedor && r.textoCompleto == texto
    ensures r.datos.Some? <==> PareceJson(ExtraerIa(texto)) && loads(ExtraerIa(texto)).Ok?
    ensures r.datos.Some? ==> r.datos.value == loads(ExtraerIa(texto)).value
    ensures r.aviso.Some? <==> r.datos.None?
    ensures r.aviso.Some? ==> r.aviso.value == MensajeNoParseado
  {
    var limpio := ExtraerIa(texto);
    if PareceJson(limpio) && loads(limpio).Ok? then
      Automatico(proveedor, Some(loads(limpio).value), texto, None)
    else
      Automatico(proveedor, None, texto, Some(MensajeNoParseado))
  }

  /** `analizar_automaticamente` with the provider call's outcome as a
      parameter: the manual mode calls nothing and hands back the prompt; a
      call that raised gives the error mode, still with the prompt; a reply
      goes through `_procesar_respuesta_ia`. */
  function AnalizarAutomaticamente(proveedor: Proveedor, prompt: string, llamada: Result<string, string>,
                                   loads: string -> Result<Valor, string>): (r: Analisis)
    ensures r.ModoManual? <==> proveedor == Manual
    ensures r.ModoManual? ==> r.prompt == prompt && r.mensaje == MensajeManual
    ensures r.ModoError? <==> proveedor != Manual && llamada.Err?
    ensures r.ModoError? ==> r.prompt == prompt
                             && StartsWith(r.mensaje, "Error al llamar a la API de " + NombreProveedor(proveedor))
                             && EndsWith(r.mensaje, llamada.error)
    ensures r.Automatico? ==> llamada.Ok? && r == ProcesarRespuestaIa(llamada.value, proveedor, loads)
  {
    if proveedor == Manual then ModoManual(prompt, MensajeManual)
    else
      match llamada
      case Err(e) =>
        var cabeza := "Error al llamar a la API de " + NombreProveedor(proveedor);
        var m := cabeza + ": " + e;
        assert m[..|cabeza|] == cabeza;
        assert m[|m| - |e|..] == e;
        ModoError(m, prompt)
      case Ok(texto) => ProcesarRespuestaIa(texto, proveedor, loads)
  }

  // ---------------------------------------------------------------------------
  // What the extraction takes

  /** "```json" begins with "```": every JSON fence is also a bare fence. */
  lemma FenceJsonEsFence(s: string, j: nat)
    ensures OccursAt(s, Gemini.FenceJson, j) ==> OccursAt(s, Gemini.Fence, j)
  {
    if j + 7 <= |s| {
      assert s[j..j + 3] == s[j..j + 7][..3];
    }
  }

  /** In the text after the opening fence, the first bare fence sits at `c`,
      and it is not followed by another backtick: then cutting at the next
      "```json" and then at "```" stops exactly at `c`. */
  lemma CorteEnCierre(u: string, c: nat)
    requires OccursAt(u, Gemini.Fence, c) && forall i :: 0 <= i < c ==> !OccursAt(u, Gemini.Fence, i)
    requires c + 3 < |u| ==> u[c + 3] != '`'
    ensures Antes(Antes(u, Gemini.FenceJson), Gemini.Fence) == u[..c]
  {
    var v := Antes(u, Gemini.FenceJson);
    assert |Gemini.Fence| == 3;
    if Contains(u, Gemini.FenceJson) {
      var j := Find(u, Gemini.FenceJson, 0);
      FenceJsonEsFence(u, j);
      assert j == c || j >= c + 3;
      assert v == u[..j];
      if j == c {
        forall i | 0 <= i ensures !OccursAt(v, Gemini.Fence, i) {
          OccursAtPrefijo(u, j, Gemini.Fence, i);
        }
        AntesSin(v, Gemini.Fence);
      } else {
        OccursAtPrefijo(u, j, Gemini.Fence, c);
        forall i | 0 <= i < c ensures !OccursAt(v, Gemini.Fence, i) {
          OccursAtPrefijo(u, j, Gemini.Fence, i);
        }
        AntesEn(v, Gemini.Fence, c);
        assert v[..c] == u[..c];
      }
    } else {
      assert v == u;
      AntesEn(u, Gemini.Fence, c);
    }
  }

  /** A reply with a "```json" block closed by a fence of exactly three
      backticks: the text between them is what is parsed, whatever bare
      fences come earlier, and it is what the corrected find-based extraction
      of `ejecutar_con_json` takes too. */
  lemma ExtraerIaBloqueJson(t: string, p: nat, q: nat)
    requires OccursAt(t, Gemini.FenceJson, p) && forall i :: 0 <= i < p ==> !OccursAt(t, Gemini.FenceJson, i)
    requires p + |Gemini.FenceJson| <= q && OccursAt(t, Gemini.Fence, q)
    requires forall i :: p + |Gemini.FenceJson| <= i < q ==> !OccursAt(t, Gemini.Fence, i)
    requires q + 3 < |t| ==> t[q + 3] != '`'
    ensures ExtraerIa(t) == Strip(t[p + |Gemini.FenceJson|..q])
    ensures ExtraerIa(t) == Gemini.ExtraerJsonCorregido(t)
  {
    var k := p + |Gemini.FenceJson|;
    Gemini.AperturaEn(t, Gemini.FenceJson, p);
    assert Antes(Antes(Tras(t, Gemini.FenceJson), Gemini.FenceJson), Gemini.Fence) == t[k..q] by {
      var u := t[k..];
      assert Tras(t, Gemini.FenceJson) == u;
      var c := q - k;
      OccursAtSufijo(t, k, Gemini.Fence, c);
      forall i | 0 <= i < c ensures !OccursAt(u, Gemini.Fence, i) {
        OccursAtSufijo(t, k, Gemini.Fence, i);
      }
      CorteEnCierre(u, c);
      assert u[..c] == t[k..q];
    }
    assert Gemini.TrozoFencesCorregido(t, Gemini.FenceJson) == t[k..q] by {
      Gemini.ExtraerConCierre(t, Gemini.FenceJson, p, q);
    }
  }

  /** A "```json" block that is never closed: the split-based extraction
      reads to the end of the reply, like the corrected extraction. */
  lemma ExtraerIaSinCierre(t: string, p: nat)
    requires OccursAt(t, Gemini.FenceJson, p) && forall i :: 0 <= i < p ==> !OccursAt(t, Gemini.FenceJson, i)
    requires forall i :: p + |Gemini.FenceJson| <= i ==> !OccursAt(t, Gemini.Fence, i)
    ensures ExtraerIa(t) == Strip(t[p + |Gemini.FenceJson|..])
    ensures ExtraerIa(t) == Gemini.ExtraerJsonCorregido(t)
  {
    var k := p + |Gemini.FenceJson|;
    Gemini.AperturaEn(t, Gemini.FenceJson, p);
    assert Antes(Antes(Tras(t, Gemini.FenceJson), Gemini.FenceJson), Gemini.Fence) == t[k..] by {
      var u := t[k..];
      assert Tras(t, Gemini.FenceJson) == u;
      forall i | 0 <= i ensures !OccursAt(u, Gemini.Fence, i) {
        OccursAtSufijo(t, k, Gemini.Fence, i);
      }
      forall i | 0 <= i ensures !OccursAt(u, Gemini.FenceJson, i) {
        FenceJsonEsFence(u, i);
      }
      AntesSin(u, Gemini.FenceJson);
      AntesSin(u, Gemini.Fence);
    }
    assert Gemini.TrozoFencesCorregido(t, Gemini.FenceJson) == t[k..] by {
      Gemini.ExtraerSinCierre(t, Gemini.FenceJson, p);
    }
  }

  /** A reply with bare fences only: the text between the first two is parsed. */
  lemma ExtraerIaBloqueSimple(t: string, p: nat, q: nat)
    requires !Contains(t, Gemini.FenceJson)
    requires OccursAt(t, Gemini.Fence, p) && forall i :: 0 <= i < p ==> !OccursAt(t, Gemini.Fence, i)
    requires p + |Gemini.Fence| <= q && OccursAt(t, Gemini.Fence, q)
    requires forall i :: p + |Gemini.Fence| <= i < q ==> !OccursAt(t, Gemini.Fence, i)
    ensures ExtraerIa(t) == Strip(t[p + |Gemini.Fence|..q])
    ensures ExtraerIa(t) == Gemini.ExtraerJsonCorregido(t)
  {
    var k := p + |Gemini.Fence|;
    Gemini.AperturaEn(t, Gemini.Fence, p);
    assert Antes(Antes(Tras(t, Gemini.Fence), Gemini.Fence), Gemini.Fence) == t[k..q] by {
      var u := t[k..];
      assert Tras(t, Gemini.Fence) == u;
      var c := q - k;
      OccursAtSufijo(t, k, Gemini.Fence, c);
      forall i | 0 <= i < c ensures !OccursAt(u, Gemini.Fence, i) {
        OccursAtSufijo(t, k, Gemini.Fence, i);
      }
      AntesEn(u, Gemini.Fence, c);
      var w := u[..c];
      forall i | 0 <= i ensures !OccursAt(w, Gemini.Fence, i) {
        OccursAtPrefijo(u, c, Gemini.Fence, i);
      }
      AntesSin(w, Gemini.Fence);
      PrefijoDeSufijo(t, k, c);
    }
    assert Gemini.TrozoFencesCorregido(t, Gemini.Fence) == t[k..q] by {
      Gemini.ExtraerConCierre(t, Gemini.Fence, p, q);
    }
  }

  /** A reply without any fence is parsed whole. */
  lemma ExtraerIaSinFence(t: string)
    requires !Contains(t, Gemini.Fence)
    ensures ExtraerIa(t) == t
  {
    assert !Contains(t, Gemini.FenceJson) by {
      ContainsIff(t, Gemini.FenceJson);
      ContainsIff(t, Gemini.Fence);
      forall i | 0 <= i ensures !OccursAt(t, Gemini.FenceJson, i) {
        FenceJsonEsFence(t, i);
      }
    }
  }

  /** The cut after the first `sep` and before the next fence is a piece of
      the reply holding no fence. */
  lemma PiezaSinFence(t: string, sep: string)
    requires Contains(t, sep) && |sep| > 0
    ensures Contains(t, Antes(Antes(Tras(t, sep), sep), Gemini.Fence))
    ensures !Contains(Antes(Antes(Tras(t, sep), sep), Gemini.Fence), Gemini.Fence)
  {
    var k := Find(t, sep, 0) + |sep|;
    var u := Tras(t, sep);
    var x := Antes(u, sep);
    AntesPrefijo(u, sep);
    AntesPrefijo(x, Gemini.Fence);
    PrefijoDePrefijoEsTrozo(t, k, u, x, Antes(x, Gemini.Fence));
  }

  /** A prefix of a prefix of the suffix from `k` is a piece of the whole. */
  lemma PrefijoDePrefijoEsTrozo(t: string, k: nat, u: string, x: string, w: string)
    requires k <= |t| && u == t[k..]
    requires StartsWith(u, x) && StartsWith(x, w)
    ensures Contains(t, w)
  {
    PrefijoDePrefijo(u, x, w);
    PrefijoDeSufijo(t, k, |w|);
    TrozoContenido(t, k, k + |w|);
  }

  /** The text handed to the parser is always a piece of the reply, and holds
      no fence when the reply has one. */
  lemma ExtraerIaTrozo(t: string)
    ensures Contains(t, ExtraerIa(t))
    ensures Contains(t, Gemini.Fence) ==> !Contains(ExtraerIa(t), Gemini.Fence)
  {
    if Contains(t, Gemini.FenceJson) {
      PiezaSinFence(t, Gemini.FenceJson);
      Gemini.StripTrozo(t, Antes(Antes(Tras(t, Gemini.FenceJson), Gemini.FenceJson), Gemini.Fence));
    } else if Contains(t, Gemini.Fence) {
      PiezaSinFence(t, Gemini.Fence);
      Gemini.StripTrozo(t, Antes(Antes(Tras(t, Gemini.Fence), Gemini.Fence), Gemini.Fence));
    } else {
      TrozoContenido(t, 0, |t|);
      assert t[0..|t|] == t;
    }
  }
}
