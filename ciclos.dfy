/** The 90-day cycle table and the phase of a cycle day (database.py). */
module Ciclos {
  import opened Valores
  import Fechas

  // ---------------------------------------------------------------------------
  // Phases

  datatype Fase = Exploracion | Experimentacion | Decision | Consolidacion

  function NombreFase(f: Fase): string {
    match f
    case Exploracion => "Exploración"
    case Experimentacion => "Experimentación"
    case Decision => "Decisión"
    case Consolidacion => "Consolidación"
  }

  /** Position of a phase in the cycle. */
  function OrdenFase(f: Fase): nat {
    match f
    case Exploracion => 0
    case Experimentacion => 1
    case Decision => 2
    case Consolidacion => 3
  }

  /** The phase of a 1-indexed cycle day. */
  function FaseDelDia(dia: int): Fase {
    if dia <= 14 then Exploracion
    else if dia <= 45 then Experimentacion
    else if dia <= 75 then Decision
    else Consolidacion
  }

  function TareasDe(f: Fase): seq<string> {
    match f
    case Exploracion => [
      "Formular hipótesis claras para nuevas ideas",
      "Diseñar experimentos baratos de validación",
      "Definir métricas mínimas de éxito",
      "Investigar competencia y mercado"]
    case Experimentacion => [
      "Lanzar MVPs funcionales",
      "Medir conversiones reales",
      "Registrar feedback utilizable",
      "Iterar rápidamente según datos"]
    case Decision => [
      "Clasificar proyectos: Kill / Iterate / Winner",
      "Justificar decisiones con métricas",
      "Eliminar proyectos sin tracción",
      "Doblar apuesta en winners"]
    case Consolidacion => [
      "Reducir exposición pública innecesaria",
      "Mejorar onboarding de usuarios",
      "Minimizar soporte manual",
      "Fortalecer ventaja competitiva"]
  }

  datatype InfoFase = InfoFase(nombre: Fase, dia: int, diasRestantes: nat, tareas: seq<string>)

  /** The phase report for a cycle started on day `inicio`, seen on day `hoy`:
      day 1 is the start day, the phases end on days 14, 45 and 75, and the
      remaining days count down from 90 on day 1 and stop at zero. */
  function CalcularFaseActual(inicio: int, hoy: int): (r: InfoFase)
    ensures r.dia == hoy - inicio + 1
    ensures r.nombre == Exploracion <==> r.dia <= 14
    ensures r.nombre == Experimentacion <==> 15 <= r.dia <= 45
    ensures r.nombre == Decision <==> 46 <= r.dia <= 75
    ensures r.nombre == Consolidacion <==> r.dia >= 76
    ensures r.dia <= 91 ==> r.dia + r.diasRestantes == 91
    ensures r.dia >= 91 <==> r.diasRestantes == 0
    ensures |r.tareas| == 4 && r.tareas == TareasDe(r.nombre)
  {
    var dia := hoy - inicio + 1;
    var restantes := 90 - dia + 1;
    var fase := FaseDelDia(dia);
    InfoFase(fase, dia, if restantes > 0 then restantes else 0, TareasDe(fase))
  }

  /** One day later the day number grows by one, the remaining days shrink by
      one until they reach zero, and the phase never goes back. */
  lemma AvanceDeUnDia(inicio: int, hoy: int)
    ensures CalcularFaseActual(inicio, hoy + 1).dia == CalcularFaseActual(inicio, hoy).dia + 1
    ensures var antes := CalcularFaseActual(inicio, hoy).diasRestantes;
            CalcularFaseActual(inicio, hoy + 1).diasRestantes == if antes > 0 then antes - 1 else 0
    ensures OrdenFase(CalcularFaseActual(inicio, hoy).nombre) <= OrdenFase(CalcularFaseActual(inicio, hoy + 1).nombre)
  {
  }

  // ---------------------------------------------------------------------------
  // The ciclos_90d table

  /** A row of `ciclos_90d`; the start and end dates are day numbers. */
  datatype Ciclo = Ciclo(id: nat, fechaInicio: int, fechaFin: int, activo: bool)

  /** The same rows, all inactive. */
  function Desactivados(filas: seq<Ciclo>): (r: seq<Ciclo>)
    ensures |r| == |filas|
    ensures forall k :: 0 <= k < |r| ==> r[k] == filas[k].(activo := false)
  {
    if |filas| == 0 then [] else [filas[0].(activo := false)] + Desactivados(filas[1..])
  }

  /** The first active cycle in table order, as `obtener_ciclo_activo` reads it. */
  function CicloActivo(filas: seq<Ciclo>): (r: Option<Ciclo>)
    ensures r.None? <==> forall k :: 0 <= k < |filas| ==> !filas[k].activo
    ensures r.Some? ==> exists k :: 0 <= k < |filas| && filas[k] == r.value && r.value.activo
                                    && forall j :: 0 <= j < k ==> !filas[j].activo
  {
    if |filas| == 0 then None
    else if filas[0].activo then Some(filas[0])
    else
      var r := CicloActivo(filas[1..]);
      if r.Some? then
        var k :| 0 <= k < |filas[1..]| && filas[1..][k] == r.value && r.value.activo
                 && forall j :: 0 <= j < k ==> !filas[1..][j].activo;
        assert filas[k + 1] == r.value;
        r
      else r
  }

  /** The active cycle with the latest start (the first such in table order),
      as `crear_proyecto` picks the cycle of a new project. */
  function CicloVigente(filas: seq<Ciclo>): (r: Option<Ciclo>)
    ensures r.None? <==> forall k :: 0 <= k < |filas| ==> !filas[k].activo
    ensures r.Some? ==> r.value in filas && r.value.activo
    ensures r.Some? ==> forall k :: 0 <= k < |filas| && filas[k].activo ==> filas[k].fechaInicio <= r.value.fechaInicio
  {
    if |filas| == 0 then None
    else
      var resto := CicloVigente(filas[1..]);
      assert forall k :: 1 <= k < |filas| ==> filas[k] == filas[1..][k - 1];
      if !filas[0].activo then resto
      else if resto.Some? && resto.value.fechaInicio > filas[0].fechaInicio then resto
      else Some(filas[0])
  }

  class TablaCiclos {
    var filas: seq<Ciclo>
    var siguienteId: nat

    /** Row ids grow with table order and stay below the next id to hand out. */
    ghost predicate Valid()
      reads this
    {
      && (forall k :: 0 <= k < |filas| ==> filas[k].id < siguienteId)
      && (forall i, j :: 0 <= i < j < |filas| ==> filas[i].id < filas[j].id)
    }

    constructor ()
      ensures Valid() && filas == [] && siguienteId == 1
    {
      filas := [];
      siguienteId := 1;
    }

    /** `crear_ciclo_90d`: a start date that does not parse is an error and the
        table is untouched; so is a start less than 90 days before 9999-12-31,
        where `date + timedelta(days=90)` raises `OverflowError`; otherwise
        every cycle is deactivated and a new active cycle from the start day
        (today when none is given) to 90 days later is appended. */
    method CrearCiclo90d(fechaInicio: Option<string>, hoy: int) returns (r: Result<nat, string>)
      requires Valid()
      modifies this
      ensures Valid()
      ensures fechaInicio.Some? && Fechas.ParseFechaIso(fechaInicio.value).None? ==>
                r.Err? && filas == old(filas) && siguienteId == old(siguienteId)
      ensures (fechaInicio.None? || Fechas.ParseFechaIso(fechaInicio.value).Some?) ==>
                var inicio := if fechaInicio.None? then hoy else Fechas.ParseFechaIso(fechaInicio.value).value;
                && (inicio + 90 > Fechas.UltimoDia ==>
                      r.Err? && filas == old(filas) && siguienteId == old(siguienteId))
                && (inicio + 90 <= Fechas.UltimoDia ==>
                      && r == Ok(old(siguienteId))
                      && filas == Desactivados(old(filas)) + [Ciclo(r.value, inicio, inicio + 90, true)]
                      && siguienteId == old(siguienteId) + 1)
    {
      var inicio := hoy;
      if fechaInicio.Some? {
        var d := Fechas.ParseFechaIso(fechaInicio.value);
        if d.None? {
          return Err("fecha_inicio no es una fecha ISO");
        }
        inicio := d.value;
      }
      if inicio + 90 > Fechas.UltimoDia {
        return Err("OverflowError: date value out of range");
      }
      var id := siguienteId;
      filas := Desactivados(filas) + [Ciclo(id, inicio, inicio + 90, true)];
      siguienteId := siguienteId + 1;
      r := Ok(id);
    }
  }

  /** After a cycle is created it is the only active cycle, so it is the one
      `obtener_ciclo_activo` and `crear_proyecto` find. */
  lemma {:induction false} UnicoCicloActivo(filas: seq<Ciclo>, nuevo: Ciclo)
    requires nuevo.activo
    ensures forall k :: 0 <= k < |Desactivados(filas) + [nuevo]| ==>
              ((Desactivados(filas) + [nuevo])[k].activo <==> k == |filas|)
    ensures CicloActivo(Desactivados(filas) + [nuevo]) == Some(nuevo)
    ensures CicloVigente(Desactivados(filas) + [nuevo]) == Some(nuevo)
  {
    var t := Desactivados(filas) + [nuevo];
    if |filas| > 0 {
      UnicoCicloActivo(filas[1..], nuevo);
      assert t[1..] == Desactivados(filas[1..]) + [nuevo];
    }
  }
}
