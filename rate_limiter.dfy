/** The in-memory sliding-window rate limiter (sistema_90d/rate_limiter.py).
    The clock reading `time()` is the parameter `ahora`, in seconds. */
module LimitadorTasa {

  /** The timestamps still inside the window at `ahora`, in their order. */
  function Recientes(ts: seq<real>, ahora: real, ventana: real): (r: seq<real>)
    ensures |r| <= |ts|
    ensures forall k :: 0 <= k < |r| ==> ahora - r[k] < ventana
    ensures forall t :: t in r <==> t in ts && ahora - t < ventana
  {
    if |ts| == 0 then []
    else (if ahora - ts[0] < ventana then [ts[0]] else []) + Recientes(ts[1..], ahora, ventana)
  }

  /** A history already inside the window is kept whole. */
  lemma {:induction false} RecientesIdentidad(ts: seq<real>, ahora: real, ventana: real)
    requires forall k :: 0 <= k < |ts| ==> ahora - ts[k] < ventana
    ensures Recientes(ts, ahora, ventana) == ts
  {
    if |ts| > 0 {
      RecientesIdentidad(ts[1..], ahora, ventana);
    }
  }

  /** The history of an action; a missing key reads as the empty list, as with `defaultdict(list)`. */
  function Historia(h: map<string, seq<real>>, accion: string): seq<real> {
    if accion in h then h[accion] else []
  }

  /** One call of `permitir`: the answer and the new map. The action's history
      is pruned to the window; the call is denied when the pruned history holds
      `limite` or more entries, and otherwise `ahora` is appended. */
  function Paso(h: map<string, seq<real>>, accion: string, limite: int, ventana: real, ahora: real)
    : (r: (bool, map<string, seq<real>>))
    ensures var podado := Recientes(Historia(h, accion), ahora, ventana);
            && (r.0 <==> |podado| < limite)
            && accion in r.1
            && r.1[accion] == (if r.0 then podado + [ahora] else podado)
            && forall otra :: otra != accion ==> (otra in r.1 <==> otra in h) && (otra in h ==> r.1[otra] == h[otra])
  {
    var podado := Recientes(Historia(h, accion), ahora, ventana);
    if |podado| >= limite then (false, h[accion := podado])
    else (true, h[accion := podado + [ahora]])
  }

  class RateLimiter {
    var historial: map<string, seq<real>>

    constructor ()
      ensures historial == map[]
    {
      historial := map[];
    }

    /** `permitir`: prunes the action's history, then denies the call when
        `limite` entries remain, or records `ahora` and allows it. */
    method Permitir(accion: string, limite: int, ventana: real, ahora: real) returns (permitido: bool)
      modifies this
      ensures (permitido, historial) == Paso(old(historial), accion, limite, ventana, ahora)
    {
      var podado := Recientes(Historia(historial, accion), ahora, ventana);
      historial := historial[accion := podado];
      if |podado| >= limite {
        return false;
      }
      historial := historial[accion := podado + [ahora]];
      assert historial == old(historial)[accion := podado + [ahora]];
      permitido := true;
    }
  }

  /** With the same non-negative `limite` on every call, no history ever grows past it. */
  lemma PasoAcotado(h: map<string, seq<real>>, accion: string, limite: int, ventana: real, ahora: real)
    requires limite >= 0
    requires |Historia(h, accion)| <= limite
    ensures |Paso(h, accion, limite, ventana, ahora).1[accion]| <= limite
  {
  }

  /** A denied call records nothing new: what is left is a part of the old history. */
  lemma PasoDenegado(h: map<string, seq<real>>, accion: string, limite: int, ventana: real, ahora: real)
    requires !Paso(h, accion, limite, ventana, ahora).0
    ensures forall t :: t in Paso(h, accion, limite, ventana, ahora).1[accion] ==> t in Historia(h, accion)
    ensures |Paso(h, accion, limite, ventana, ahora).1[accion]| >= limite
  {
  }

  /** `n` calls of the same action in a row at the same instant. */
  function Rafaga(h: map<string, seq<real>>, accion: string, limite: int, ventana: real, ahora: real, n: nat)
    : (seq<bool>, map<string, seq<real>>)
  {
    if n == 0 then ([], h)
    else
      var antes := Rafaga(h, accion, limite, ventana, ahora, n - 1);
      var paso := Paso(antes.1, accion, limite, ventana, ahora);
      (antes.0 + [paso.0], paso.1)
  }

  /** Pruning at `ahora` keeps what was already inside the window: the empty
      history, or `m` copies of `ahora` itself. */
  lemma PodadoEnRafaga(hh: map<string, seq<real>>, accion: string, ventana: real, ahora: real, m: nat)
    requires ventana > 0.0
    requires m == 0 ==> Recientes(Historia(hh, accion), ahora, ventana) == []
    requires m > 0 ==> Historia(hh, accion) == seq(m, _ => ahora)
    ensures Recientes(Historia(hh, accion), ahora, ventana) == seq(m, _ => ahora)
  {
    if m > 0 {
      RecientesIdentidad(Historia(hh, accion), ahora, ventana);
    }
  }

  /** One more copy of a value at the end of a run of it. */
  lemma RepetidoMasUno<T>(n: nat, x: T)
    ensures seq(n, _ => x) + [x] == seq(n + 1, _ => x)
  {
  }

  /** Up to `limite` calls at one instant, starting from a history with nothing
      inside the window, are all allowed, and each leaves one more `ahora`. */
  lemma {:induction false} RafagaPermitida(h: map<string, seq<real>>, accion: string, limite: int, ventana: real, ahora: real, n: nat)
    requires ventana > 0.0
    requires n <= limite
    requires Recientes(Historia(h, accion), ahora, ventana) == []
    ensures Rafaga(h, accion, limite, ventana, ahora, n).0 == seq(n, _ => true)
    ensures n > 0 ==> Historia(Rafaga(h, accion, limite, ventana, ahora, n).1, accion) == seq(n, _ => ahora)
  {
    if n > 0 {
      RafagaPermitida(h, accion, limite, ventana, ahora, n - 1);
      var antes := Rafaga(h, accion, limite, ventana, ahora, n - 1);
      PodadoEnRafaga(antes.1, accion, ventana, ahora, n - 1);
      RepetidoMasUno(n - 1, ahora);
      RepetidoMasUno(n - 1, true);
    }
  }

  /** `limite` calls at the same instant are allowed and the next one is denied. */
  lemma RafagaLimite(h: map<string, seq<real>>, accion: string, limite: nat, ventana: real, ahora: real)
    requires ventana > 0.0
    requires Recientes(Historia(h, accion), ahora, ventana) == []
    ensures Rafaga(h, accion, limite, ventana, ahora, limite + 1).0 == seq(limite, _ => true) + [false]
  {
    RafagaPermitida(h, accion, limite, ventana, ahora, limite);
    var antes := Rafaga(h, accion, limite, ventana, ahora, limite);
    if limite > 0 {
      RecientesIdentidad(Historia(antes.1, accion), ahora, ventana);
    }
  }
}
