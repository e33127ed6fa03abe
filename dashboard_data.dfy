/** The arithmetic of the unified dashboard (sistema_90d/dashboard_data.py):
    cycle day, remaining days, progress, phase, 30-day ROI and adherence, and
    the display flags added to each project summary. The clock reading
    `datetime.now()` is the parameter `ahora`, in seconds; day `d` starts at
    second `d * 86400`. */
module DatosDashboard {
  import opened Valores
  import opened Texto
  import Fechas
  import Ciclos
  import Metricas

  const SegundosDia: int := 86400

  // ---------------------------------------------------------------------------
  // Cycle

  /** The start day of the cycle: the stored `fecha_inicio_ciclo`, or today
      when none is stored; a stored text that is not a date is an error. */
  function InicioDelCiclo(config: Option<string>, ahora: int): (r: Result<int, string>)
    ensures config.None? ==> r == Ok(ahora / SegundosDia)
    ensures config.Some? ==> (r.Ok? <==> Fechas.ParseFechaIso(config.value).Some?)
    ensures config.Some? && r.Ok? ==> r.value == Fechas.ParseFechaIso(config.value).value
  {
    if config.None? then Ok(ahora / SegundosDia)
    else
      var d := Fechas.ParseFechaIso(config.value);
      if d.None? then Err("ValueError: Invalid isoformat string") else Ok(d.value)
  }

  /** `(datetime.now() - fecha_inicio).days + 1`: whole days elapsed since the
      start day's midnight, rounded down, plus one. */
  function DiaActual(inicio: int, ahora: int): (d: int)
    ensures (d - 1) * SegundosDia <= ahora - inicio * SegundosDia < d * SegundosDia
  {
    (ahora - inicio * SegundosDia) / SegundosDia + 1
  }

  /** The `ciclo` block: day, remaining days, progress and the two dates. */
  datatype CicloPanel = CicloPanel(diaActual: int, diasRestantes: nat, progresoPct: real, fechaInicio: int, fechaFin: int)

  function CicloDelPanel(inicio: int, ahora: int): (c: CicloPanel)
    ensures c.diaActual == DiaActual(inicio, ahora)
    ensures c.diaActual <= 90 ==> c.diaActual + c.diasRestantes == 90
    ensures c.diaActual >= 90 <==> c.diasRestantes == 0
    ensures c.progresoPct <= 100.0
    ensures c.progresoPct == 100.0 <==> c.diaActual >= 90
    ensures c.diaActual < 90 ==> c.progresoPct * 90.0 == c.diaActual as real * 100.0
    ensures c.fechaInicio == inicio && c.fechaFin == inicio + 90
  {
    var dia := DiaActual(inicio, ahora);
    var restantes := if 90 - dia > 0 then 90 - dia else 0;
    var progreso := dia as real / 90.0 * 100.0;
    CicloPanel(dia, restantes, if progreso < 100.0 then progreso else 100.0, inicio, inicio + 90)
  }

  /** The dashboard's day is the day `calcular_fase_actual` reports for the
      same start on the calendar day holding `ahora`, but its remaining days
      are one fewer: it counts down from 89 on day 1, the database from 90. */
  lemma CicloComoBaseDeDatos(inicio: int, ahora: int)
    ensures var hoy := ahora / SegundosDia;
            var c := CicloDelPanel(inicio, ahora);
            var info := Ciclos.CalcularFaseActual(inicio, hoy);
            && c.diaActual == info.dia
            && (c.diaActual <= 90 ==> c.diasRestantes + 1 == info.diasRestantes)
            && (c.diaActual > 90 ==> c.diasRestantes == info.diasRestantes == 0)
  {
    var hoy := ahora / SegundosDia;
    assert ahora - inicio * SegundosDia == (hoy - inicio) * SegundosDia + ahora % SegundosDia;
    assert (ahora - inicio * SegundosDia) / SegundosDia == hoy - inicio;
  }

  /** The progress never falls as time passes. */
  lemma ProgresoMonotono(inicio: int, ahora: int, despues: int)
    requires ahora <= despues
    ensures CicloDelPanel(inicio, ahora).progresoPct <= CicloDelPanel(inicio, despues).progresoPct
  {
    var d1 := DiaActual(inicio, ahora);
    var d2 := DiaActual(inicio, despues);
    assert d1 <= d2;
  }

  // ---------------------------------------------------------------------------
  // Phase

  /** The `fase` block: name, colour and icon. */
  datatype FasePanel = FasePanel(nombre: string, color: string, icono: string)

  function FaseDelPanel(dia: int): FasePanel {
    if dia <= 14 then FasePanel("Exploración", "blue", "🔍")
    else if dia <= 45 then FasePanel("Experimentación", "orange", "🧪")
    else if dia <= 75 then FasePanel("Decisión", "red", "🎯")
    else FasePanel("Consolidación", "green", "🚀")
  }

  /** The dashboard names the same phase as `calcular_fase_actual` on every day. */
  lemma FaseComoCiclo(dia: int)
    ensures FaseDelPanel(dia).nombre == Ciclos.NombreFase(Ciclos.FaseDelDia(dia))
  {
  }

  // ---------------------------------------------------------------------------
  // Metrics of the last 30 days

  /** The rows dated on or after `desde` (`WHERE fecha >= desde`, a text comparison). */
  function DesdeFecha(ms: seq<Metricas.Metrica>, desde: string): (r: seq<Metricas.Metrica>)
    ensures |r| <= |ms|
    ensures forall m :: m in r <==> m in ms && !LexMenor(m.fecha, desde)
    ensures forall m :: multiset(r)[m] == if !LexMenor(m.fecha, desde) then multiset(ms)[m] else 0
  {
    if |ms| == 0 then []
    else
      assert ms == [ms[0]] + ms[1..];
      (if !LexMenor(ms[0].fecha, desde) then [ms[0]] else []) + DesdeFecha(ms[1..], desde)
  }

  /** The `metricas_30d` block. */
  datatype Metricas30 = Metricas30(ingresosTotales: real, horasTotales: real, roiPorHora: real, ultimaMetricaFecha: string)

  /** `MAX(fecha)` of the rows, or 'Nunca' when there is none (or it is empty). */
  function UltimaFecha(filas: seq<Metricas.Metrica>): (f: string)
    ensures (forall k :: 0 <= k < |filas| ==> filas[k].fecha == "") ==> f == "Nunca"
    ensures (exists k | 0 <= k < |filas| :: filas[k].fecha != "") ==>
              && (exists k | 0 <= k < |filas| :: filas[k].fecha == f)
              && forall k :: 0 <= k < |filas| ==> !LexMenor(f, filas[k].fecha)
    ensures f != "Nunca" ==> exists k | 0 <= k < |filas| :: filas[k].fecha == f
  {
    var fs := Metricas.Fechas(filas);
    var ultima := Metricas.MaxFecha(fs);
    if ultima.Some? && ultima.value != "" then
      assert exists k | 0 <= k < |fs| :: fs[k] == ultima.value;
      ultima.value
    else "Nunca"
  }

  /** The sums over the window (`SUM(...) or 0`: a NULL sum over no rows
      reads as 0, which is also the sum of no rows), the revenue per hour
      with no division when no hours were logged, and the latest date. */
  function CalcularMetricas30(ms: seq<Metricas.Metrica>, desde: string): (r: Metricas30)
    ensures r.ingresosTotales == Metricas.SumaIngresos(DesdeFecha(ms, desde))
    ensures r.horasTotales == Metricas.SumaTiempo(DesdeFecha(ms, desde))
    ensures r.roiPorHora == Metricas.Roi(r.ingresosTotales, r.horasTotales)
    ensures r.ultimaMetricaFecha == UltimaFecha(DesdeFecha(ms, desde))
  {
    var filas := DesdeFecha(ms, desde);
    var ingresos := Metricas.SumaIngresos(filas);
    var horas := Metricas.SumaTiempo(filas);
    Metricas30(ingresos, horas, Metricas.Roi(ingresos, horas), UltimaFecha(filas))
  }

  // ---------------------------------------------------------------------------
  // Adherence

  datatype EstadoAdherencia = Excelente | Buena | Baja

  /** `dias_activos / 30 * 100`. */
  function PorcentajeAdherencia(diasActivos: nat): (p: real)
    ensures p * 30.0 == diasActivos as real * 100.0
  {
    diasActivos as real / 30.0 * 100.0
  }

  function EstadoDe(pct: real): (e: EstadoAdherencia)
    ensures e == Excelente <==> pct >= 80.0
    ensures e == Buena <==> 50.0 <= pct < 80.0
    ensures e == Baja <==> pct < 50.0
  {
    if pct >= 80.0 then Excelente else if pct >= 50.0 then Buena else Baja
  }

  /** The distinct dates of some rows. */
  function FechasDistintas(filas: seq<Metricas.Metrica>): set<string> {
    set k | 0 <= k < |filas| :: filas[k].fecha
  }

  lemma {:induction false} FechasDistintasCota(filas: seq<Metricas.Metrica>)
    ensures |FechasDistintas(filas)| <= |filas|
    ensures |filas| > 0 ==> |FechasDistintas(filas)| >= 1
  {
    if |filas| > 0 {
      var resto := filas[1..];
      FechasDistintasCota(resto);
      assert forall k :: 1 <= k < |filas| ==> filas[k] == resto[k - 1];
      assert FechasDistintas(filas) == FechasDistintas(resto) + {filas[0].fecha};
    }
  }

  /** `COUNT(DISTINCT fecha)` over the window: never more than its rows. */
  function DiasActivos(ms: seq<Metricas.Metrica>, desde: string): (n: nat)
    ensures n <= |DesdeFecha(ms, desde)|
    ensures |DesdeFecha(ms, desde)| > 0 ==> n >= 1
  {
    FechasDistintasCota(DesdeFecha(ms, desde));
    |FechasDistintas(DesdeFecha(ms, desde))|
  }

  /** In days: at least 24 active days of 30 is excellent, 15 to 23 good, fewer poor. */
  lemma AdherenciaEnDias(diasActivos: nat)
    ensures EstadoDe(PorcentajeAdherencia(diasActivos)) == Excelente <==> diasActivos >= 24
    ensures EstadoDe(PorcentajeAdherencia(diasActivos)) == Buena <==> 15 <= diasActivos < 24
    ensures EstadoDe(PorcentajeAdherencia(diasActivos)) == Baja <==> diasActivos < 15
  {
    var p := PorcentajeAdherencia(diasActivos);
    assert p * 30.0 == diasActivos as real * 100.0;
  }

  // ---------------------------------------------------------------------------
  // The whole report

  /** The `adherencia` block. */
  datatype Adherencia = Adherencia(diasActivos: nat, porcentaje: real, estado: EstadoAdherencia)

  /** The parts of `obtener_estado_sistema` that are computed rather than read:
      the project counts, rituals and health checks are queries and stay out. */
  datatype EstadoSistema = EstadoSistema(ciclo: CicloPanel, fase: FasePanel, metricas30: Metricas30, adherencia: Adherencia)

  /** `obtener_estado_sistema` over the metrics table, with `desde` the first
      date of the 30-day window. A start less than 90 days before 9999-12-31
      makes `fecha_fin` raise `OverflowError`. */
  function ObtenerEstadoSistema(config: Option<string>, ahora: int, ms: seq<Metricas.Metrica>, desde: string)
    : (r: Result<EstadoSistema, string>)
    ensures r.Err? <==> || (config.Some? && Fechas.ParseFechaIso(config.value).None?)
                        || (InicioDelCiclo(config, ahora).Ok? && InicioDelCiclo(config, ahora).value + 90 > Fechas.UltimoDia)
    ensures r.Ok? ==> var inicio := InicioDelCiclo(config, ahora).value;
                      && r.value.ciclo == CicloDelPanel(inicio, ahora)
                      && r.value.fase.nombre == Ciclos.NombreFase(Ciclos.FaseDelDia(DiaActual(inicio, ahora)))
                      && r.value.metricas30 == CalcularMetricas30(ms, desde)
                      && r.value.fase == FaseDelPanel(r.value.ciclo.diaActual)
                      && (var dias := DiasActivos(ms, desde);
                          r.value.adherencia == Adherencia(dias, PorcentajeAdherencia(dias), EstadoDe(PorcentajeAdherencia(dias))))
                      && r.value.adherencia.diasActivos <= |DesdeFecha(ms, desde)|
                      && (r.value.adherencia.estado == Excelente <==> r.value.adherencia.diasActivos >= 24)
                      && (r.value.adherencia.estado == Baja <==> r.value.adherencia.diasActivos < 15)
  {
    var inicio := InicioDelCiclo(config, ahora);
    if inicio.Err? then Err(inicio.error)
    else if inicio.value + 90 > Fechas.UltimoDia then Err("OverflowError: date value out of range")
    else
      var ciclo := CicloDelPanel(inicio.value, ahora);
      FaseComoCiclo(ciclo.diaActual);
      var dias := DiasActivos(ms, desde);
      var pct := PorcentajeAdherencia(dias);
      AdherenciaEnDias(dias);
      Ok(EstadoSistema(ciclo, FaseDelPanel(ciclo.diaActual), CalcularMetricas30(ms, desde), Adherencia(dias, pct, EstadoDe(pct))))
  }

  // ---------------------------------------------------------------------------
  // Project summaries

  /** The UI flags `obtener_proyectos_resumen` adds to a row. */
  datatype Marcas = Marcas(esActivo: bool, diasDisplay: int, ultimaMetricaDisplay: string)

  /** A row of `v_resumen_proyectos` (the columns the flags read), with the
      flags once they have been added. */
  datatype Resumen = Resumen(estado: string, diasDesdeInicio: Option<real>, ultimaMetricaFecha: Option<string>, marcas: Option<Marcas>)

  /** Python's `int()` on a float: rounds toward zero. */
  function Truncar(x: real): (n: int)
    ensures x >= 0.0 ==> n as real <= x < n as real + 1.0
    ensures x < 0.0 ==> n as real - 1.0 < x <= n as real
  {
    if x >= 0.0 then x.Floor else -((-x).Floor)
  }

  function MarcasDe(r: Resumen): (m: Marcas)
    ensures m.esActivo <==> r.estado == "active" || r.estado == "mvp" || r.estado == "idea"
    ensures (r.diasDesdeInicio.None? || r.diasDesdeInicio.value == 0.0) ==> m.diasDisplay == 0
    ensures r.diasDesdeInicio.Some? && r.diasDesdeInicio.value >= 0.0 ==>
              m.diasDisplay as real <= r.diasDesdeInicio.value < m.diasDisplay as real + 1.0
    ensures r.diasDesdeInicio.Some? && r.diasDesdeInicio.value < 0.0 ==>
              m.diasDisplay as real - 1.0 < r.diasDesdeInicio.value <= m.diasDisplay as real
    ensures r.diasDesdeInicio.Some? ==> m.diasDisplay == Truncar(r.diasDesdeInicio.value)
    ensures m.ultimaMetricaDisplay == "-" <==> r.ultimaMetricaFecha.None? || r.ultimaMetricaFecha.value in {"", "-"}
    ensures m.ultimaMetricaDisplay != "-" ==> r.ultimaMetricaFecha == Some(m.ultimaMetricaDisplay)
  {
    Marcas(
      r.estado in ["active", "mvp", "idea"],
      if r.diasDesdeInicio.Some? && r.diasDesdeInicio.value != 0.0 then Truncar(r.diasDesdeInicio.value) else 0,
      if r.ultimaMetricaFecha.Some? && r.ultimaMetricaFecha.value != "" then r.ultimaMetricaFecha.value else "-")
  }

  /** The loop of `obtener_proyectos_resumen`: each row gains its flags, in
      place, and keeps every column it had. */
  method EnriquecerResumenes(proyectos: array<Resumen>)
    modifies proyectos
    ensures forall k :: 0 <= k < proyectos.Length ==>
              proyectos[k] == old(proyectos[k]).(marcas := Some(MarcasDe(old(proyectos[k]))))
  {
    var i := 0;
    while i < proyectos.Length
      invariant 0 <= i <= proyectos.Length
      invariant forall k :: 0 <= k < i ==>
                  proyectos[k] == old(proyectos[k]).(marcas := Some(MarcasDe(old(proyectos[k]))))
      invariant forall k :: i <= k < proyectos.Length ==> proyectos[k] == old(proyectos[k])
    {
      var p := proyectos[i];
      proyectos[i] := p.(marcas := Some(MarcasDe(p)));
      i := i + 1;
    }
  }
}
