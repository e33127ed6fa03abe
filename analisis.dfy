/** The weekly automatic analysis (analisis_ia_gemini.py): the structure check
    on the JSON the model returns, the result flow of
    `analisis_semanal_automatico`, and the loop of `_guardar_decisiones_ia`
    over the `decisiones` table. Python's `in` and `[...]` on a parsed value
    may raise TypeError or KeyError; that is `None` (or `false`) here. */
module AnalisisGemini {
  import opened Valores
  import opened Texto
  import Gemini
  import Proyectos

  // ---------------------------------------------------------------------------
  // `in` on a parsed value

  /** The values `in` can search: dicts, lists and strings. */
  predicate Iterable(v: Valor) {
    v.Dict? || v.Lista? || v.Str?
  }

  /** `clave in v`: a key of a dict, an element of a list, a substring of a
      string; `None` for the TypeError `in` raises on null, booleans and numbers. */
  function Pertenece(clave: string, v: Valor): (r: Option<bool>)
    ensures r.None? <==> !Iterable(v)
    ensures v.Dict? ==> r == Some(clave in v.campos)
    ensures v.Lista? ==> r == Some(Str(clave) in v.items)
  {
    match v
    case Dict(c) => Some(clave in c)
    case Lista(xs) => Some(Str(clave) in xs)
    case Str(s) => Some(Contains(s, clave))
    case _ => None
  }

  /** `all(k in v for k in claves)`, which stops at the first missing key. */
  function TodasPresentes(claves: seq<string>, v: Valor): (r: Option<bool>)
    ensures r == Some(true) <==> forall k :: 0 <= k < |claves| ==> Pertenece(claves[k], v) == Some(true)
    ensures r.None? <==> |claves| > 0 && !Iterable(v)
  {
    if |claves| == 0 then Some(true)
    else
      match Pertenece(claves[0], v)
      case None => None
      case Some(esta) =>
        if !esta then Some(false)
        else
          var resto := TodasPresentes(claves[1..], v);
          assert forall k :: 1 <= k < |claves| ==> claves[k] == claves[1..][k - 1];
          resto
  }

  const CamposRequeridos: seq<string> := ["resumen_ejecutivo", "proyectos", "riesgos_detectados"]
  const CamposProyecto: seq<string> := ["id", "decision", "justificacion"]

  /** A project entry the loop over `proyectos` accepts. */
  predicate ProyectoCompleto(p: Valor) {
    TodasPresentes(CamposProyecto, p) == Some(true)
  }

  /** The loop over the projects: false at the first incomplete one, `None`
      when `in` raises on one before that. */
  function ProyectosValidos(ps: seq<Valor>): (r: Option<bool>)
    ensures r == Some(true) <==> forall i :: 0 <= i < |ps| ==> ProyectoCompleto(ps[i])
    ensures r.None? <==> exists i :: 0 <= i < |ps| && !Iterable(ps[i]) && forall j :: 0 <= j < i ==> ProyectoCompleto(ps[j])
  {
    if |ps| == 0 then Some(true)
    else
      match TodasPresentes(CamposProyecto, ps[0])
      case None => None
      case Some(completo) =>
        if !completo then Some(false)
        else
          var resto := ProyectosValidos(ps[1..]);
          assert forall i :: 1 <= i < |ps| ==> ps[i] == ps[1..][i - 1];
          resto
  }

  /** `_validar_estructura_analisis`. The three top-level keys must be there,
      `proyectos` must be a list and every project must have `id`,
      `decision` and `justificacion`; `None` when the check raises, which
      happens for a value `in` cannot search and for a list or string that
      holds the three key names, since indexing it with "proyectos" fails. */
  function ValidarEstructura(a: Valor): (r: Option<bool>)
    ensures r == Some(true) <==>
              && a.Dict?
              && (forall k :: 0 <= k < |CamposRequeridos| ==> CamposRequeridos[k] in a.campos)
              && "proyectos" in a.campos
              && a.campos["proyectos"].Lista?
              && forall i :: 0 <= i < |a.campos["proyectos"].items| ==> ProyectoCompleto(a.campos["proyectos"].items[i])
    ensures !Iterable(a) ==> r.None?
    ensures (a.Lista? || a.Str?) ==> (r.None? <==> TodasPresentes(CamposRequeridos, a) == Some(true))
    ensures a.Dict? && (exists k :: 0 <= k < |CamposRequeridos| && CamposRequeridos[k] !in a.campos) ==> r == Some(false)
    ensures a.Dict? && (forall k :: 0 <= k < |CamposRequeridos| ==> CamposRequeridos[k] in a.campos) ==>
              "proyectos" in a.campos && (!a.campos["proyectos"].Lista? ==> r == Some(false))
  {
    match TodasPresentes(CamposRequeridos, a)
    case None => None
    case Some(todas) =>
      assert todas ==> Pertenece(CamposRequeridos[1], a) == Some(true);
      if !todas then Some(false)
      else if !a.Dict? then None
      else if !a.campos["proyectos"].Lista? then Some(false)
      else ProyectosValidos(a.campos["proyectos"].items)
  }

  // ---------------------------------------------------------------------------
  // `_guardar_decisiones_ia`

  /** A row of `decisiones` written by the weekly analysis; `accionTomada`
      is None when the INSERT leaves the column out. */
  datatype DecisionIa = DecisionIa(proyectoId: Valor, tipo: Valor, justificacion: Valor, origen: string, fecha: string,
                                   accionTomada: Option<string>)

  /** The value the INSERT of `_guardar_decisiones_ia` gives `accion_tomada`:
      as written the column is not in the column list, so it would be NULL. */
  const AccionAsiEscrita: Option<string> := None

  /** The corrected INSERT names the column; the suggestion is stored as
      awaiting the user's answer. */
  const AccionCorregida: Option<string> := Some("pospuesta")

  /** The `accion_tomada` constraints: NOT NULL, and one of the allowed actions. */
  predicate AccionAdmitida(accion: Option<string>) {
    accion.Some? && accion.value in Proyectos.AccionesValidas
  }

  /** The parameter types sqlite3 can bind: None, booleans, numbers and strings. */
  predicate Vinculable(v: Valor) {
    v.Nulo? || v.Bool? || v.Num? || v.Str?
  }

  /** A project dict the handler can name in its warning: reading `proyecto['id']` again does not raise. */
  predicate TieneId(p: Valor) {
    p.Dict? && "id" in p.campos
  }

  /** The insert for project `i` succeeds: the three values can be read and
      bound, `accion_tomada` meets its constraints, and the database accepts
      the row otherwise (`inserta(i)`: the project exists, and so on). */
  predicate Insertable(p: Valor, i: nat, inserta: nat -> bool, accion: Option<string>) {
    ProyectoVinculable(p) && AccionAdmitida(accion) && inserta(i)
  }

  /** The three values of a project can be read and bound. */
  predicate ProyectoVinculable(p: Valor) {
    && p.Dict? && "id" in p.campos && "decision" in p.campos && "justificacion" in p.campos
    && Vinculable(p.campos["id"]) && Vinculable(p.campos["decision"]) && Vinculable(p.campos["justificacion"])
  }

  /** The row written for an insertable project. */
  function Fila(p: Valor, hoy: string, accion: Option<string>): (d: DecisionIa)
    requires p.Dict? && "id" in p.campos && "decision" in p.campos && "justificacion" in p.campos
    ensures d.proyectoId == p.campos["id"] && d.tipo == p.campos["decision"]
    ensures d.justificacion == p.campos["justificacion"] && d.origen == "ia_gemini" && d.fecha == hoy
    ensures d.accionTomada == accion
  {
    DecisionIa(p.campos["id"], p.campos["decision"], p.campos["justificacion"], "ia_gemini", hoy, accion)
  }

  /** The rows the loop writes for the projects `ps`, numbered from `desde`,
      when nothing raises: one per insertable project, in order. */
  function Guardadas(ps: seq<Valor>, desde: nat, inserta: nat -> bool, hoy: string, accion: Option<string>): (r: seq<DecisionIa>)
    ensures |r| <= |ps|
    decreases |ps|
  {
    if |ps| == 0 then []
    else
      var n := |ps| - 1;
      Guardadas(ps[..n], desde, inserta, hoy, accion) + (if Insertable(ps[n], desde + n, inserta, accion) then [Fila(ps[n], hoy, accion)] else [])
  }

  /** A row is written for exactly the insertable projects, each from its project. */
  lemma {:induction false} GuardadasMiembros(ps: seq<Valor>, desde: nat, inserta: nat -> bool, hoy: string, accion: Option<string>, d: DecisionIa)
    ensures d in Guardadas(ps, desde, inserta, hoy, accion) <==>
              exists i :: 0 <= i < |ps| && Insertable(ps[i], desde + i, inserta, accion) && d == Fila(ps[i], hoy, accion)
    decreases |ps|
  {
    if |ps| > 0 {
      var n := |ps| - 1;
      GuardadasMiembros(ps[..n], desde, inserta, hoy, accion, d);
      assert forall i :: 0 <= i < n ==> ps[..n][i] == ps[i];
    }
  }

  /** A failed insert does not stop the loop: the rows for a list of projects
      are the rows for its first part followed by the rows for the rest. */
  lemma {:induction false} GuardadasConcat(a: seq<Valor>, b: seq<Valor>, desde: nat, inserta: nat -> bool, hoy: string, accion: Option<string>)
    ensures Guardadas(a + b, desde, inserta, hoy, accion) == Guardadas(a, desde, inserta, hoy, accion) + Guardadas(b, desde + |a|, inserta, hoy, accion)
    decreases |b|
  {
    if |b| == 0 {
      assert a + b == a;
    } else {
      var n := |b| - 1;
      GuardadasConcat(a, b[..n], desde, inserta, hoy, accion);
      assert (a + b)[..|a| + n] == a + b[..n];
      assert (a + b)[|a| + n] == b[n];
    }
  }

  /** When every insert succeeds every project gets its row, in order. */
  lemma {:induction false} GuardadasTodas(ps: seq<Valor>, desde: nat, inserta: nat -> bool, hoy: string, accion: Option<string>)
    requires forall i :: 0 <= i < |ps| ==> Insertable(ps[i], desde + i, inserta, accion)
    ensures |Guardadas(ps, desde, inserta, hoy, accion)| == |ps|
    ensures forall i :: 0 <= i < |ps| ==>
              Insertable(ps[i], desde + i, inserta, accion) && Guardadas(ps, desde, inserta, hoy, accion)[i] == Fila(ps[i], hoy, accion)
    decreases |ps|
  {
    if |ps| > 0 {
      var n := |ps| - 1;
      assert forall i :: 0 <= i < n ==> ps[..n][i] == ps[i];
      GuardadasTodas(ps[..n], desde, inserta, hoy, accion);
    }
  }

  /** As written the INSERT leaves `accion_tomada` NULL, the NOT NULL
      constraint refuses every row, and the save writes nothing at all. */
  lemma {:induction false} GuardadasAsiEscrito(ps: seq<Valor>, desde: nat, inserta: nat -> bool, hoy: string)
    ensures Guardadas(ps, desde, inserta, hoy, AccionAsiEscrita) == []
    decreases |ps|
  {
    if |ps| > 0 {
      GuardadasAsiEscrito(ps[..|ps| - 1], desde, inserta, hoy);
    }
  }

  /** With the column supplied, every project whose values can be bound and
      that the database otherwise accepts gets its row, in order, marked as
      awaiting an answer. */
  lemma GuardadasCorregido(ps: seq<Valor>, desde: nat, inserta: nat -> bool, hoy: string)
    requires forall i :: 0 <= i < |ps| ==> ProyectoVinculable(ps[i]) && inserta(desde + i)
    ensures |Guardadas(ps, desde, inserta, hoy, AccionCorregida)| == |ps|
    ensures forall i :: 0 <= i < |ps| ==>
              && ProyectoVinculable(ps[i])
              && Guardadas(ps, desde, inserta, hoy, AccionCorregida)[i].proyectoId == ps[i].campos["id"]
              && Guardadas(ps, desde, inserta, hoy, AccionCorregida)[i].accionTomada == Some("pospuesta")
  {
    GuardadasTodas(ps, desde, inserta, hoy, AccionCorregida);
  }

  class TablaDecisiones {
    var filas: seq<DecisionIa>

    constructor ()
      ensures filas == []
    {
      filas := [];
    }

    /** `_guardar_decisiones_ia` inside one transaction. A failing insert is
        logged and the loop goes on; but the handler reads `proyecto['id']`
        again, so a project that is not a dict with an `id` raises out of
        the loop, and the transaction rolls back every row of this call. */
    method GuardarDecisionesIa(proyectos: seq<Valor>, inserta: nat -> bool, hoy: string, accion: Option<string>) returns (ok: bool)
      modifies this
      ensures ok <==> forall i :: 0 <= i < |proyectos| ==> TieneId(proyectos[i])
      ensures ok ==> filas == old(filas) + Guardadas(proyectos, 0, inserta, hoy, accion)
      ensures !ok ==> filas == old(filas)
    {
      var nuevas: seq<DecisionIa> := [];
      for i := 0 to |proyectos|
        invariant nuevas == Guardadas(proyectos[..i], 0, inserta, hoy, accion)
        invariant forall j :: 0 <= j < i ==> TieneId(proyectos[j])
      {
        var p := proyectos[i];
        assert proyectos[..i + 1][..i] == proyectos[..i];
        if Insertable(p, i, inserta, accion) {
          nuevas := nuevas + [Fila(p, hoy, accion)];
        } else if !TieneId(p) {
          return false;
        }
      }
      assert proyectos[..|proyectos|] == proyectos;
      filas := filas + nuevas;
      ok := true;
    }
  }

  /** A validated analysis whose projects are all dicts never raises while saving. */
  lemma ValidadaSinCaida(a: Valor)
    requires ValidarEstructura(a) == Some(true)
    requires forall i :: 0 <= i < |a.campos["proyectos"].items| ==> a.campos["proyectos"].items[i].Dict?
    ensures forall i :: 0 <= i < |a.campos["proyectos"].items| ==> TieneId(a.campos["proyectos"].items[i])
  {
    var ps := a.campos["proyectos"].items;
    forall i | 0 <= i < |ps| ensures TieneId(ps[i]) {
      assert ProyectoCompleto(ps[i]);
      assert Pertenece(CamposProyecto[0], ps[i]) == Some(true);
    }
  }

  /** The check accepts a project written as the list of the three key
      names; saving it then raises in the handler. */
  lemma ValidadaConListaCae()
    ensures var p := Lista([Str("id"), Str("decision"), Str("justificacion")]);
            var a := Dict(map["resumen_ejecutivo" := Nulo, "proyectos" := Lista([p]), "riesgos_detectados" := Nulo]);
            ValidarEstructura(a) == Some(true) && !TieneId(p)
  {
    var p := Lista([Str("id"), Str("decision"), Str("justificacion")]);
    assert ProyectoCompleto(p) by {
      assert forall k :: 0 <= k < |CamposProyecto| ==> Str(CamposProyecto[k]) in p.items;
    }
  }

  // ---------------------------------------------------------------------------
  // `analisis_semanal_automatico`

  /** The returned dict, without `tiempo_ejecucion` (a clock reading). */
  datatype ResultadoSemanal = ResultadoSemanal(
    success: bool,
    analisis: Option<Valor>,
    promptUsado: string,
    error: Option<string>,
    respuestaRaw: Option<string>)

  const ErrorNoJson: string := "Respuesta no es JSON válido"
  const ErrorEstructura: string := "Estructura de respuesta inválida"

  /** The analysis came back parsed and passes the structure check. */
  predicate AnalisisValido(resultado: Gemini.RespuestaCli) {
    && resultado.success && resultado.json.Some? && resultado.json.value.Parseado?
    && ValidarEstructura(resultado.json.value.datos) == Some(true)
  }

  /** One weekly run once `ejecutar_con_json` has answered with `resultado`.
      `Err` is an exception leaving the method (from the structure check or
      from the save). Every earlier exit reports failure with the prompt and
      writes nothing; a run that reports success has gone through the save,
      whose INSERT as written leaves `accion_tomada` out, so it too leaves
      the table as it was. */
  method AnalisisSemanalAutomatico(tabla: TablaDecisiones, prompt: string, resultado: Gemini.RespuestaCli,
                                   inserta: nat -> bool, hoy: string)
    returns (r: Result<ResultadoSemanal, string>)
    modifies tabla
    ensures r.Ok? ==> r.value.promptUsado == prompt
    ensures !resultado.success ==> r == Ok(ResultadoSemanal(false, None, prompt, resultado.error, None))
    ensures resultado.success && !(resultado.json.Some? && resultado.json.value.Parseado?) ==>
              r == Ok(ResultadoSemanal(false, None, prompt, Some(ErrorNoJson), Some(resultado.respuesta)))
    ensures resultado.success && resultado.json.Some? && resultado.json.value.Parseado? ==>
              var a := resultado.json.value.datos;
              && (ValidarEstructura(a).None? ==> r.Err?)
              && (ValidarEstructura(a) == Some(false) ==> r == Ok(ResultadoSemanal(false, Some(a), prompt, Some(ErrorEstructura), None)))
    ensures r.Ok? && r.value.success <==>
              AnalisisValido(resultado)
              && forall i :: 0 <= i < |resultado.json.value.datos.campos["proyectos"].items| ==>
                   TieneId(resultado.json.value.datos.campos["proyectos"].items[i])
    ensures r.Ok? && r.value.success ==>
              && r.value == ResultadoSemanal(true, Some(resultado.json.value.datos), prompt, None, None)
              && Guardadas(resultado.json.value.datos.campos["proyectos"].items, 0, inserta, hoy, AccionAsiEscrita) == []
    ensures tabla.filas == old(tabla.filas)
  {
    if !resultado.success {
      return Ok(ResultadoSemanal(false, None, prompt, resultado.error, None));
    }
    if !(resultado.json.Some? && resultado.json.value.Parseado?) {
      return Ok(ResultadoSemanal(false, None, prompt, Some(ErrorNoJson), Some(resultado.respuesta)));
    }
    var analisis := resultado.json.value.datos;
    var valida := ValidarEstructura(analisis);
    if valida.None? {
      return Err("TypeError");
    }
    if !valida.value {
      return Ok(ResultadoSemanal(false, Some(analisis), prompt, Some(ErrorEstructura), None));
    }
    var ok := tabla.GuardarDecisionesIa(analisis.campos["proyectos"].items, inserta, hoy, AccionAsiEscrita);
    GuardadasAsiEscrito(analisis.campos["proyectos"].items, 0, inserta, hoy);
    if !ok {
      return Err("KeyError");
    }
    r := Ok(ResultadoSemanal(true, Some(analisis), prompt, None, None));
  }
}
