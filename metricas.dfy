/** The `metricas` table and the aggregates database.py computes over it. */
module Metricas {
  import opened Valores
  import opened Texto

  /** A row of `metricas` (the columns the rules read). */
  datatype Metrica = Metrica(proyectoId: int, fecha: string, ingresos: real, tiempoHoras: real, conversiones: int)

  /** The rows of one project, in table order. */
  function DelProyecto(ms: seq<Metrica>, pid: int): (r: seq<Metrica>)
    ensures |r| <= |ms|
    ensures forall m :: m in r <==> m in ms && m.proyectoId == pid
    ensures forall m :: multiset(r)[m] == if m.proyectoId == pid then multiset(ms)[m] else 0
  {
    if |ms| == 0 then []
    else
      assert ms == [ms[0]] + ms[1..];
      (if ms[0].proyectoId == pid then [ms[0]] else []) + DelProyecto(ms[1..], pid)
  }

  function SumaIngresos(ms: seq<Metrica>): real {
    if |ms| == 0 then 0.0 else ms[0].ingresos + SumaIngresos(ms[1..])
  }

  function SumaTiempo(ms: seq<Metrica>): real {
    if |ms| == 0 then 0.0 else ms[0].tiempoHoras + SumaTiempo(ms[1..])
  }

  function SumaConversiones(ms: seq<Metrica>): int {
    if |ms| == 0 then 0 else ms[0].conversiones + SumaConversiones(ms[1..])
  }

  /** With no negative hours, the total is zero exactly when every row has zero hours. */
  lemma {:induction false} SumaTiempoCero(ms: seq<Metrica>)
    requires forall k :: 0 <= k < |ms| ==> ms[k].tiempoHoras >= 0.0
    ensures SumaTiempo(ms) >= 0.0
    ensures SumaTiempo(ms) == 0.0 <==> forall k :: 0 <= k < |ms| ==> ms[k].tiempoHoras == 0.0
  {
    if |ms| > 0 {
      SumaTiempoCero(ms[1..]);
      assert forall k :: 1 <= k < |ms| ==> ms[k] == ms[1..][k - 1];
    }
  }

  /** Python's `max` of two strings (the first when they are equal). */
  function MaxTexto(a: string, b: string): string {
    if LexMenor(a, b) then b else a
  }

  /** The larger of `a` and `b` is not below either, nor below anything `b` is not below. */
  lemma MaxTextoCota(a: string, b: string, resto: seq<string>)
    requires forall k :: 0 <= k < |resto| ==> !LexMenor(b, resto[k])
    ensures !LexMenor(MaxTexto(a, b), a) && !LexMenor(MaxTexto(a, b), b)
    ensures forall k :: 0 <= k < |resto| ==> !LexMenor(MaxTexto(a, b), resto[k])
  {
    if LexMenor(a, b) {
      LexMenorAsimetrico(a, b);
      LexMenorIrreflexivo(b);
    } else {
      LexMenorIrreflexivo(a);
    }
    forall k | 0 <= k < |resto|
      ensures !LexMenor(MaxTexto(a, b), resto[k])
    {
      NoMenorTransitivo(MaxTexto(a, b), b, resto[k]);
    }
  }

  /** SQL `MAX` over text: None for no rows, else the greatest string. */
  function MaxFecha(fs: seq<string>): (r: Option<string>)
    ensures r.None? <==> |fs| == 0
    ensures r.Some? ==> r.value in fs && forall k :: 0 <= k < |fs| ==> !LexMenor(r.value, fs[k])
  {
    if |fs| == 0 then None
    else
      var resto := MaxFecha(fs[1..]);
      if resto.None? then
        LexMenorIrreflexivo(fs[0]);
        Some(fs[0])
      else
        var m := MaxTexto(fs[0], resto.value);
        MaxTextoCota(fs[0], resto.value, fs[1..]);
        assert forall k :: 1 <= k < |fs| ==> fs[k] == fs[1..][k - 1];
        Some(m)
  }

  function Fechas(ms: seq<Metrica>): (r: seq<string>)
    ensures |r| == |ms| && forall k :: 0 <= k < |ms| ==> r[k] == ms[k].fecha
  {
    if |ms| == 0 then [] else [ms[0].fecha] + Fechas(ms[1..])
  }

  // ---------------------------------------------------------------------------
  // Aggregates

  /** `COUNT(*)` and the `SUM`s of one project's rows; a `SUM` over no rows is NULL. */
  datatype Agregado = Agregado(
    numMetricas: nat,
    totalIngresos: Option<real>,
    totalTiempo: Option<real>,
    totalConversiones: Option<int>)

  function AgregarMetricas(ms: seq<Metrica>, pid: int): (a: Agregado)
    ensures a.numMetricas == |DelProyecto(ms, pid)|
    ensures a.totalTiempo.None? <==> a.numMetricas == 0
    ensures a.totalTiempo.Some? ==> a.totalTiempo.value == SumaTiempo(DelProyecto(ms, pid))
    ensures a.totalIngresos.None? <==> a.numMetricas == 0
    ensures a.totalIngresos.Some? ==> a.totalIngresos.value == SumaIngresos(DelProyecto(ms, pid))
    ensures a.totalConversiones.None? <==> a.numMetricas == 0
    ensures a.totalConversiones.Some? ==> a.totalConversiones.value == SumaConversiones(DelProyecto(ms, pid))
  {
    var filas := DelProyecto(ms, pid);
    if |filas| == 0 then Agregado(0, None, None, None)
    else Agregado(|filas|, Some(SumaIngresos(filas)), Some(SumaTiempo(filas)), Some(SumaConversiones(filas)))
  }

  /** Revenue per hour, with no division when no time was recorded. */
  function Roi(ingresos: real, tiempo: real): (r: real)
    ensures tiempo > 0.0 ==> r * tiempo == ingresos
    ensures tiempo <= 0.0 ==> r == 0.0
  {
    if tiempo > 0.0 then ingresos / tiempo else 0.0
  }

  /** Positive revenue over positive hours gives a positive ROI, and no revenue a zero ROI. */
  lemma RoiSigno(ingresos: real, tiempo: real)
    requires tiempo > 0.0
    ensures Roi(ingresos, tiempo) > 0.0 <==> ingresos > 0.0
    ensures Roi(ingresos, tiempo) == 0.0 <==> ingresos == 0.0
  {
  }

  /** `MAX(fecha)` over some rows: NULL exactly when there are none. */
  function UltimaDe(filas: seq<Metrica>): (r: Option<string>)
    ensures r.None? <==> |filas| == 0
    ensures r.Some? ==> (exists k :: 0 <= k < |filas| && filas[k].fecha == r.value)
                        && forall k :: 0 <= k < |filas| ==> !LexMenor(r.value, filas[k].fecha)
  {
    MaxFecha(Fechas(filas))
  }

  /** What `calcular_dashboard_proyecto` returns; missing sums read as zero. */
  datatype Dashboard = Dashboard(
    totalIngresos: real,
    totalTiempo: real,
    totalConversiones: int,
    numMetricas: nat,
    ultimaFecha: Option<string>,
    roi: real)

  function CalcularDashboardProyecto(ms: seq<Metrica>, pid: int): (d: Dashboard)
    ensures d.numMetricas == |DelProyecto(ms, pid)|
    ensures d.totalTiempo == SumaTiempo(DelProyecto(ms, pid))
    ensures d.totalIngresos == SumaIngresos(DelProyecto(ms, pid))
    ensures d.roi == Roi(d.totalIngresos, d.totalTiempo)
    ensures d.totalConversiones == SumaConversiones(DelProyecto(ms, pid))
    ensures d.ultimaFecha == MaxFecha(Fechas(DelProyecto(ms, pid)))
    ensures d.ultimaFecha.None? <==> d.numMetricas == 0
  {
    var filas := DelProyecto(ms, pid);
    Dashboard(SumaIngresos(filas), SumaTiempo(filas), SumaConversiones(filas), |filas|, UltimaDe(filas),
              Roi(SumaIngresos(filas), SumaTiempo(filas)))
  }
}
