/** Data validation, the `alertas` table and the project analysis that
    reconciles it (database.py). */
module Alertas {
  import opened Valores
  import opened Texto
  import Metricas

  // ---------------------------------------------------------------------------
  // Validation of a project's aggregates

  const DatosInsuficientes: string := "datos_insuficientes"
  const SinTiempoRegistrado: string := "sin_tiempo_registrado"

  datatype Validacion = Valida(mensaje: string) | Invalida(tipo: string, mensaje: string)

  /** `validar_datos_proyecto`: fewer than three metrics first, then no recorded time. */
  function ValidarDatosProyecto(a: Metricas.Agregado): (v: Validacion)
    ensures v.Invalida? && v.tipo == DatosInsuficientes <==> a.numMetricas < 3
    ensures v.Invalida? && v.tipo == SinTiempoRegistrado <==>
              a.numMetricas >= 3 && (a.totalTiempo.None? || a.totalTiempo.value == 0.0)
    ensures v.Valida? <==> a.numMetricas >= 3 && a.totalTiempo.Some? && a.totalTiempo.value != 0.0
    ensures v.Invalida? ==> v.tipo == DatosInsuficientes || v.tipo == SinTiempoRegistrado
  {
    if a.numMetricas < 3 then
      Invalida(DatosInsuficientes, "Solo " + Decimal(a.numMetricas)
                 + " métricas registradas. Se necesitan al menos 3 para análisis confiable.")
    else if a.totalTiempo.None? || a.totalTiempo.value == 0.0 then
      Invalida(SinTiempoRegistrado, "No se ha registrado tiempo invertido. Sin esto, no se puede calcular ROI real.")
    else
      Valida("Datos suficientes para análisis")
  }

  /** Over the metrics table: with hours that are never negative, a project is
      valid exactly when it has three or more metrics and some hours recorded. */
  lemma ValidaSobreMetricas(ms: seq<Metricas.Metrica>, pid: int)
    requires forall k :: 0 <= k < |ms| ==> ms[k].tiempoHoras >= 0.0
    ensures ValidarDatosProyecto(Metricas.AgregarMetricas(ms, pid)).Valida? <==>
              var filas := Metricas.DelProyecto(ms, pid);
              |filas| >= 3 && exists k :: 0 <= k < |filas| && filas[k].tiempoHoras != 0.0
  {
    var filas := Metricas.DelProyecto(ms, pid);
    forall k | 0 <= k < |filas|
      ensures filas[k].tiempoHoras >= 0.0
    {
      assert filas[k] in ms;
    }
    Metricas.SumaTiempoCero(filas);
  }

  // ---------------------------------------------------------------------------
  // ROI classification

  datatype Clasificacion = WinnerC | Prometedor | Viable | NoViable
  datatype Sugerencia = Scale | Iterate | Kill

  /** Strict thresholds at 50, 10 and 0 dollars per hour. */
  function Clasificar(roi: real): (Clasificacion, Sugerencia) {
    if roi > 50.0 then (WinnerC, Scale)
    else if roi > 10.0 then (Prometedor, Iterate)
    else if roi > 0.0 then (Viable, Iterate)
    else (NoViable, Kill)
  }

  function Rango(c: Clasificacion): nat {
    match c
    case NoViable => 0
    case Viable => 1
    case Prometedor => 2
    case WinnerC => 3
  }

  /** A higher ROI never gets a worse classification; scale is suggested
      exactly above 50 and kill exactly at 0 or below. */
  lemma ClasificarMonotono(r1: real, r2: real)
    requires r1 <= r2
    ensures Rango(Clasificar(r1).0) <= Rango(Clasificar(r2).0)
    ensures Clasificar(r1).1 == Scale <==> r1 > 50.0
    ensures Clasificar(r1).1 == Kill <==> r1 <= 0.0
  {
  }

  // ---------------------------------------------------------------------------
  // The alertas table

  datatype Severidad = Info | Warning | Critical

  datatype Alerta = Alerta(
    id: nat,
    proyectoId: int,
    tipo: string,
    severidad: Severidad,
    mensaje: string,
    resuelta: bool,
    fechaResolucion: Option<int>,
    resolucionAutomatica: bool,
    fecha: int)

  /** An unresolved alert of project `pid`. */
  predicate Abierta(a: Alerta, pid: int) {
    a.proyectoId == pid && !a.resuelta
  }

  function Resolver(a: Alerta, automatica: bool, ahora: int): Alerta {
    a.(resuelta := true, fechaResolucion := Some(ahora), resolucionAutomatica := automatica)
  }

  /** An open alert of `pid` whose type is no longer reported. */
  predicate Obsoleta(a: Alerta, pid: int, tipos: seq<string>) {
    Abierta(a, pid) && a.tipo !in tipos
  }

  /** The table after `limpiar_alertas_obsoletas(pid, tipos)`: exactly the obsolete
      alerts are resolved automatically, every other row is as it was. */
  function Limpiadas(filas: seq<Alerta>, pid: int, tipos: seq<string>, ahora: int): (r: seq<Alerta>)
    ensures |r| == |filas|
    ensures forall k :: 0 <= k < |filas| ==>
              r[k] == if Obsoleta(filas[k], pid, tipos) then Resolver(filas[k], true, ahora) else filas[k]
    ensures forall k :: 0 <= k < |filas| ==> r[k].id == filas[k].id
  {
    if |filas| == 0 then []
    else
      var a := filas[0];
      [if Obsoleta(a, pid, tipos) then Resolver(a, true, ahora) else a] + Limpiadas(filas[1..], pid, tipos, ahora)
  }

  /** The table after `UPDATE alertas SET resuelta = 1 ... WHERE id = alertaId`. */
  function ResueltaPorId(filas: seq<Alerta>, alertaId: int, automatica: bool, ahora: int): (r: seq<Alerta>)
    ensures |r| == |filas|
    ensures forall k :: 0 <= k < |filas| ==>
              r[k] == if filas[k].id == alertaId then Resolver(filas[k], automatica, ahora) else filas[k]
  {
    if |filas| == 0 then []
    else
      var a := filas[0];
      [if a.id == alertaId then Resolver(a, automatica, ahora) else a] + ResueltaPorId(filas[1..], alertaId, automatica, ahora)
  }

  /** The open alerts of `pid`, in table order. */
  function Pendientes(filas: seq<Alerta>, pid: int): (r: seq<Alerta>)
    ensures forall a :: a in r <==> a in filas && Abierta(a, pid)
  {
    if |filas| == 0 then []
    else (if Abierta(filas[0], pid) then [filas[0]] else []) + Pendientes(filas[1..], pid)
  }

  /** `filas` is `antes` with the obsolete alerts whose ids are in `hechos` resolved. */
  ghost predicate LimpiezaParcial(antes: seq<Alerta>, filas: seq<Alerta>, pid: int, tipos: seq<string>, ahora: int, hechos: set<nat>) {
    && |filas| == |antes|
    && forall k :: 0 <= k < |filas| ==>
         filas[k] == if Obsoleta(antes[k], pid, tipos) && antes[k].id in hechos
                     then Resolver(antes[k], true, ahora) else antes[k]
  }

  /** What the cleanup loop does with the open alert `a`: resolve it by id
      when its type is no longer reported. */
  function Atender(filas: seq<Alerta>, a: Alerta, tipos: seq<string>, ahora: int): seq<Alerta> {
    if a.tipo !in tipos then ResueltaPorId(filas, a.id, true, ahora) else filas
  }

  /** The state of the cleanup loop after `j` of the open alerts `pendientes` of `antes`. */
  ghost predicate EnLimpieza(antes: seq<Alerta>, pendientes: seq<Alerta>, filas: seq<Alerta>, pid: int,
                             tipos: seq<string>, ahora: int, hechos: set<nat>, j: int) {
    && 0 <= j <= |pendientes|
    && IdsCrecientes(antes)
    && pendientes == Pendientes(antes, pid)
    && (forall i :: 0 <= i < j ==> pendientes[i].id in hechos)
    && LimpiezaParcial(antes, filas, pid, tipos, ahora, hechos)
  }

  /** One step of the cleanup loop: handling the open alert `a` adds its id to `hechos`. */
  lemma PasoLimpieza(antes: seq<Alerta>, filas: seq<Alerta>, pid: int, tipos: seq<string>, ahora: int, hechos: set<nat>, a: Alerta)
    requires IdsCrecientes(antes)
    requires LimpiezaParcial(antes, filas, pid, tipos, ahora, hechos)
    requires a in Pendientes(antes, pid)
    ensures LimpiezaParcial(antes, Atender(filas, a, tipos, ahora), pid, tipos, ahora, hechos + {a.id})
  {
    assert a in antes && Abierta(a, pid);
    var p :| 0 <= p < |antes| && antes[p] == a;
    var nuevas := Atender(filas, a, tipos, ahora);
    forall k | 0 <= k < |antes|
      ensures nuevas[k] == if Obsoleta(antes[k], pid, tipos) && antes[k].id in hechos + {a.id}
                           then Resolver(antes[k], true, ahora) else antes[k]
    {
      if k != p {
        assert antes[k].id != a.id by {
          if k < p { assert antes[k].id < antes[p].id; } else { assert antes[p].id < antes[k].id; }
        }
      }
    }
  }

  /** The loop invariant survives handling the next open alert. */
  lemma PasoEnLimpieza(antes: seq<Alerta>, pendientes: seq<Alerta>, filas: seq<Alerta>, pid: int,
                       tipos: seq<string>, ahora: int, hechos: set<nat>, j: int)
    requires EnLimpieza(antes, pendientes, filas, pid, tipos, ahora, hechos, j) && j < |pendientes|
    ensures EnLimpieza(antes, pendientes, Atender(filas, pendientes[j], tipos, ahora), pid, tipos, ahora,
                       hechos + {pendientes[j].id}, j + 1)
  {
    PasoLimpieza(antes, filas, pid, tipos, ahora, hechos, pendientes[j]);
  }

  /** Once every open alert has been handled, the partial cleanup is the whole of it. */
  lemma LimpiezaTerminada(antes: seq<Alerta>, pendientes: seq<Alerta>, filas: seq<Alerta>, pid: int,
                          tipos: seq<string>, ahora: int, hechos: set<nat>)
    requires EnLimpieza(antes, pendientes, filas, pid, tipos, ahora, hechos, |pendientes|)
    ensures filas == Limpiadas(antes, pid, tipos, ahora)
    ensures forall k :: 0 <= k < |filas| ==> filas[k].id == antes[k].id
  {
    forall k | 0 <= k < |antes| && Obsoleta(antes[k], pid, tipos)
      ensures antes[k].id in hechos
    {
      assert antes[k] in pendientes;
      var i :| 0 <= i < |pendientes| && pendientes[i] == antes[k];
    }
  }

  /** Some open alert of `pid` has type `tipo`. */
  predicate HayAbiertaDelTipo(filas: seq<Alerta>, pid: int, tipo: string) {
    exists k | 0 <= k < |filas| :: Abierta(filas[k], pid) && filas[k].tipo == tipo
  }

  /** Ids grow strictly with table order, so they are unique. */
  ghost predicate IdsCrecientes(filas: seq<Alerta>) {
    forall i, j :: 0 <= i < j < |filas| ==> filas[i].id < filas[j].id
  }

  /** No two open alerts of the same project share a type. */
  ghost predicate SinDuplicados(filas: seq<Alerta>) {
    forall i, j :: (0 <= i < j < |filas| && !filas[i].resuelta && !filas[j].resuelta
                    && filas[i].proyectoId == filas[j].proyectoId) ==> filas[i].tipo != filas[j].tipo
  }

  function SeveridadPara(tipo: string): Severidad {
    if tipo == SinTiempoRegistrado then Warning else Info
  }

  function NuevaAlerta(id: nat, pid: int, tipo: string, mensaje: string, severidad: Severidad, ahora: int): Alerta {
    Alerta(id, pid, tipo, severidad, mensaje, false, None, false, ahora)
  }

  /** The table after `analizar_proyecto_con_validacion(pid)` given the
      validation outcome `v`, with `sig` the next alert id. */
  function Reconciliar(filas: seq<Alerta>, sig: nat, pid: int, v: Validacion, ahora: int): seq<Alerta> {
    match v
    case Valida(_) => Limpiadas(filas, pid, [], ahora)
    case Invalida(tipo, mensaje) =>
      var conNueva := if HayAbiertaDelTipo(filas, pid, tipo) then filas
                      else filas + [NuevaAlerta(sig, pid, tipo, mensaje, SeveridadPara(tipo), ahora)];
      Limpiadas(conNueva, pid, [tipo], ahora)
  }

  /** The next alert id after the reconciliation. */
  function SiguienteTrasReconciliar(filas: seq<Alerta>, sig: nat, pid: int, v: Validacion): nat {
    if v.Invalida? && !HayAbiertaDelTipo(filas, pid, v.tipo) then sig + 1 else sig
  }

  /** On invalid data: a new alert is added only when none of that type is open,
      with severity warning exactly for missing time; afterwards the project's
      only open alerts are of that type, and one of them is open. */
  lemma ReconciliarInvalida(filas: seq<Alerta>, sig: nat, pid: int, tipo: string, mensaje: string, ahora: int)
    ensures var r := Reconciliar(filas, sig, pid, Invalida(tipo, mensaje), ahora);
            && (HayAbiertaDelTipo(filas, pid, tipo) ==> |r| == |filas|)
            && (!HayAbiertaDelTipo(filas, pid, tipo) ==>
                  |r| == |filas| + 1 && r[|filas|] == NuevaAlerta(sig, pid, tipo, mensaje, SeveridadPara(tipo), ahora))
            && (forall k :: 0 <= k < |r| && Abierta(r[k], pid) ==> r[k].tipo == tipo)
            && HayAbiertaDelTipo(r, pid, tipo)
  {
    var r := Reconciliar(filas, sig, pid, Invalida(tipo, mensaje), ahora);
    if HayAbiertaDelTipo(filas, pid, tipo) {
      var k :| 0 <= k < |filas| && Abierta(filas[k], pid) && filas[k].tipo == tipo;
      assert Abierta(r[k], pid) && r[k].tipo == tipo;
    } else {
      assert Abierta(r[|filas|], pid);
    }
  }

  /** On valid data no alert of the project stays open. */
  lemma ReconciliarValida(filas: seq<Alerta>, sig: nat, pid: int, mensaje: string, ahora: int)
    ensures var r := Reconciliar(filas, sig, pid, Valida(mensaje), ahora);
            |r| == |filas| && forall k :: 0 <= k < |r| ==> !Abierta(r[k], pid)
  {
  }

  /** Alerts of other projects, alerts already resolved and open alerts of the
      reported type keep their rows unchanged. */
  lemma ReconciliarMarco(filas: seq<Alerta>, sig: nat, pid: int, v: Validacion, ahora: int)
    ensures var r := Reconciliar(filas, sig, pid, v, ahora);
            && |r| >= |filas|
            && (forall k :: 0 <= k < |filas| && (filas[k].proyectoId != pid || filas[k].resuelta) ==> r[k] == filas[k])
            && (v.Invalida? ==> forall k :: 0 <= k < |filas| && filas[k].tipo == v.tipo ==> r[k] == filas[k])
  {
    if v.Invalida? && !HayAbiertaDelTipo(filas, pid, v.tipo) {
      var c := filas + [NuevaAlerta(sig, pid, v.tipo, v.mensaje, SeveridadPara(v.tipo), ahora)];
      assert forall k :: 0 <= k < |filas| ==> c[k] == filas[k];
    }
  }

  /** Analysing the same data twice leaves the table as analysing it once. */
  lemma {:induction false} ReconciliarIdempotente(filas: seq<Alerta>, sig1: nat, sig2: nat, pid: int, v: Validacion, t1: int, t2: int)
    ensures var r := Reconciliar(filas, sig1, pid, v, t1);
            Reconciliar(r, sig2, pid, v, t2) == r
  {
    var r := Reconciliar(filas, sig1, pid, v, t1);
    match v
    case Valida(m) =>
      ReconciliarValida(filas, sig1, pid, m, t1);
      assert Limpiadas(r, pid, [], t2) == r;
    case Invalida(tipo, m) =>
      ReconciliarInvalida(filas, sig1, pid, tipo, m, t1);
      assert Limpiadas(r, pid, [tipo], t2) == r;
  }

  /** Resolving alerts cannot create duplicates. */
  lemma LimpiadasSinDuplicados(c: seq<Alerta>, pid: int, tipos: seq<string>, ahora: int)
    requires SinDuplicados(c)
    ensures SinDuplicados(Limpiadas(c, pid, tipos, ahora))
  {
    var r := Limpiadas(c, pid, tipos, ahora);
    forall i, j | 0 <= i < j < |r| && !r[i].resuelta && !r[j].resuelta && r[i].proyectoId == r[j].proyectoId
      ensures r[i].tipo != r[j].tipo
    {
      assert r[i] == c[i] && r[j] == c[j];
    }
  }

  /** Appending an open alert of a type not yet open for its project keeps the table duplicate-free. */
  lemma AgregarSinDuplicados(filas: seq<Alerta>, nueva: Alerta)
    requires SinDuplicados(filas)
    requires !HayAbiertaDelTipo(filas, nueva.proyectoId, nueva.tipo)
    ensures SinDuplicados(filas + [nueva])
  {
    var c := filas + [nueva];
    forall i, j | 0 <= i < j < |c| && !c[i].resuelta && !c[j].resuelta && c[i].proyectoId == c[j].proyectoId
      ensures c[i].tipo != c[j].tipo
    {
      assert c[i] == filas[i];
      if j == |filas| {
        assert Abierta(filas[i], nueva.proyectoId);
      } else {
        assert c[j] == filas[j];
      }
    }
  }

  /** Reconciling keeps open alerts free of duplicates. */
  lemma ReconciliarSinDuplicados(filas: seq<Alerta>, sig: nat, pid: int, v: Validacion, ahora: int)
    requires SinDuplicados(filas)
    ensures SinDuplicados(Reconciliar(filas, sig, pid, v, ahora))
  {
    match v
    case Valida(m) =>
      LimpiadasSinDuplicados(filas, pid, [], ahora);
    case Invalida(tipo, m) =>
      if HayAbiertaDelTipo(filas, pid, tipo) {
        LimpiadasSinDuplicados(filas, pid, [tipo], ahora);
      } else {
        var nueva := NuevaAlerta(sig, pid, tipo, m, SeveridadPara(tipo), ahora);
        AgregarSinDuplicados(filas, nueva);
        LimpiadasSinDuplicados(filas + [nueva], pid, [tipo], ahora);
      }
  }

  /** On invalid data, starting without duplicates, the project is left with exactly one open alert. */
  lemma ReconciliarUnaAbierta(filas: seq<Alerta>, sig: nat, pid: int, tipo: string, mensaje: string, ahora: int)
    requires SinDuplicados(filas)
    ensures var r := Reconciliar(filas, sig, pid, Invalida(tipo, mensaje), ahora);
            && (exists k :: 0 <= k < |r| && Abierta(r[k], pid))
            && forall i, j :: 0 <= i < |r| && 0 <= j < |r| && Abierta(r[i], pid) && Abierta(r[j], pid) ==> i == j
  {
    var r := Reconciliar(filas, sig, pid, Invalida(tipo, mensaje), ahora);
    ReconciliarInvalida(filas, sig, pid, tipo, mensaje, ahora);
    ReconciliarSinDuplicados(filas, sig, pid, Invalida(tipo, mensaje), ahora);
    forall i, j | 0 <= i < |r| && 0 <= j < |r| && Abierta(r[i], pid) && Abierta(r[j], pid)
      ensures i == j
    {
    }
  }

  // ---------------------------------------------------------------------------
  // Analysis result

  datatype ResultadoAnalisis =
    | Advertencia(proyectoId: int, tipo: string, mensaje: string, datos: Metricas.Agregado)
    | Analizado(proyectoId: int, clasificacion: Clasificacion, decision: Sugerencia, roi: real, panel: Metricas.Dashboard)

  /** The answer of `analizar_proyecto_con_validacion` for the metrics `ms`. */
  function Analizar(ms: seq<Metricas.Metrica>, pid: int): ResultadoAnalisis {
    var a := Metricas.AgregarMetricas(ms, pid);
    var v := ValidarDatosProyecto(a);
    if v.Invalida? then Advertencia(pid, v.tipo, v.mensaje, a)
    else
      var d := Metricas.CalcularDashboardProyecto(ms, pid);
      var c := Clasificar(d.roi);
      Analizado(pid, c.0, c.1, d.roi, d)
  }

  /** A classified answer only comes from valid data: at least three metrics
      and a non-zero hour total; its ROI is the panel's guarded ROI and its
      classification follows the thresholds. */
  lemma AnalizarClasifica(ms: seq<Metricas.Metrica>, pid: int)
    ensures Analizar(ms, pid).Advertencia? <==> ValidarDatosProyecto(Metricas.AgregarMetricas(ms, pid)).Invalida?
    ensures var r := Analizar(ms, pid);
            r.Analizado? ==>
              && r.panel == Metricas.CalcularDashboardProyecto(ms, pid)
              && r.panel.numMetricas >= 3 && r.panel.totalTiempo != 0.0
              && r.roi == r.panel.roi
              && (r.clasificacion, r.decision) == Clasificar(r.roi)
  {
    var a := Metricas.AgregarMetricas(ms, pid);
    var v := ValidarDatosProyecto(a);
    if v.Valida? {
      var d := Metricas.CalcularDashboardProyecto(ms, pid);
      assert Analizar(ms, pid) == Analizado(pid, Clasificar(d.roi).0, Clasificar(d.roi).1, d.roi, d);
      assert a.totalTiempo.value == d.totalTiempo;
    }
  }

  class TablaAlertas {
    var filas: seq<Alerta>
    var siguienteId: nat

    ghost predicate Valid()
      reads this
    {
      && IdsCrecientes(filas)
      && (forall k :: 0 <= k < |filas| ==> filas[k].id < siguienteId)
    }

    constructor ()
      ensures Valid() && filas == [] && siguienteId == 1
    {
      filas := [];
      siguienteId := 1;
    }

    /** `crear_alerta`: appends an open alert with the next id. */
    method CrearAlerta(pid: int, tipo: string, mensaje: string, severidad: Severidad, ahora: int) returns (id: nat)
      requires Valid()
      modifies this
      ensures Valid()
      ensures id == old(siguienteId) && siguienteId == id + 1
      ensures filas == old(filas) + [NuevaAlerta(id, pid, tipo, mensaje, severidad, ahora)]
    {
      id := siguienteId;
      filas := filas + [NuevaAlerta(id, pid, tipo, mensaje, severidad, ahora)];
      siguienteId := siguienteId + 1;
    }

    /** `resolver_alerta`: resolves the row with that id, if any, and says whether one matched. */
    method ResolverAlerta(alertaId: int, automatica: bool, ahora: int) returns (actualizado: bool)
      requires Valid()
      modifies this
      ensures Valid() && siguienteId == old(siguienteId)
      ensures filas == ResueltaPorId(old(filas), alertaId, automatica, ahora)
      ensures actualizado <==> exists k :: 0 <= k < |old(filas)| && old(filas)[k].id == alertaId
    {
      actualizado := exists k | 0 <= k < |filas| :: filas[k].id == alertaId;
      filas := ResueltaPorId(filas, alertaId, automatica, ahora);
    }

    /** `limpiar_alertas_obsoletas`: reads the open alerts of the project, then
        resolves by id, automatically, each one whose type is not in `tipos`. */
    method LimpiarAlertasObsoletas(pid: int, tipos: seq<string>, ahora: int)
      requires Valid()
      modifies this
      ensures Valid() && siguienteId == old(siguienteId)
      ensures filas == Limpiadas(old(filas), pid, tipos, ahora)
    {
      var pendientes := Pendientes(filas, pid);
      ghost var antes := filas;
      ghost var hechos: set<nat> := {};
      var j := 0;
      while j < |pendientes|
        invariant siguienteId == old(siguienteId)
        invariant EnLimpieza(antes, pendientes, filas, pid, tipos, ahora, hechos, j)
      {
        PasoEnLimpieza(antes, pendientes, filas, pid, tipos, ahora, hechos, j);
        filas := Atender(filas, pendientes[j], tipos, ahora);
        hechos := hechos + {pendientes[j].id};
        j := j + 1;
      }
      LimpiezaTerminada(antes, pendientes, filas, pid, tipos, ahora, hechos);
    }

    /** `analizar_proyecto_con_validacion`: on invalid data opens an alert of
        that type unless one is open, then resolves the project's other open
        alerts; on valid data resolves all of them and classifies the ROI. */
    method AnalizarProyectoConValidacion(pid: int, ms: seq<Metricas.Metrica>, ahora: int) returns (r: ResultadoAnalisis)
      requires Valid()
      modifies this
      ensures Valid()
      ensures var v := ValidarDatosProyecto(Metricas.AgregarMetricas(ms, pid));
              && filas == Reconciliar(old(filas), old(siguienteId), pid, v, ahora)
              && siguienteId == SiguienteTrasReconciliar(old(filas), old(siguienteId), pid, v)
      ensures r == Analizar(ms, pid)
    {
      var a := Metricas.AgregarMetricas(ms, pid);
      var v := ValidarDatosProyecto(a);
      if v.Invalida? {
        var existe := HayAbiertaDelTipo(filas, pid, v.tipo);
        if !existe {
          var _ := CrearAlerta(pid, v.tipo, v.mensaje, SeveridadPara(v.tipo), ahora);
        }
        LimpiarAlertasObsoletas(pid, [v.tipo], ahora);
        return Advertencia(pid, v.tipo, v.mensaje, a);
      }
      LimpiarAlertasObsoletas(pid, [], ahora);
      var d := Metricas.CalcularDashboardProyecto(ms, pid);
      var c := Clasificar(d.roi);
      r := Analizado(pid, c.0, c.1, d.roi, d);
    }
  }
}
