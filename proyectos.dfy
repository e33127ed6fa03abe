/** The `proyectos` table: states, creation, state updates with a version bump,
    the hour estimate and zombie detection (database.py). */
module Proyectos {
  import opened Valores
  import opened Texto
  import Fechas
  import Ciclos
  import Metricas

  datatype Estado = Idea | Mvp | Active | Paused | Killed | Winner

  function TextoEstado(e: Estado): string {
    match e
    case Idea => "idea"
    case Mvp => "mvp"
    case Active => "active"
    case Paused => "paused"
    case Killed => "killed"
    case Winner => "winner"
  }

  /** The six values allowed by the table's CHECK constraint, in the order the code lists them. */
  const EstadosValidos: seq<string> := ["idea", "mvp", "active", "paused", "killed", "winner"]

  /** Reads a state name; anything outside the six allowed values is None. */
  function ParseEstado(s: string): (r: Option<Estado>)
    ensures r.Some? <==> s in EstadosValidos
    ensures r.Some? ==> TextoEstado(r.value) == s
  {
    if s == "idea" then Some(Idea)
    else if s == "mvp" then Some(Mvp)
    else if s == "active" then Some(Active)
    else if s == "paused" then Some(Paused)
    else if s == "killed" then Some(Killed)
    else if s == "winner" then Some(Winner)
    else None
  }

  lemma ParseTextoEstado(e: Estado)
    ensures ParseEstado(TextoEstado(e)) == Some(e)
    ensures TextoEstado(e) in EstadosValidos
  {
  }

  /** A row of `proyectos`; `version` is the optimistic-locking counter. */
  datatype Proyecto = Proyecto(
    id: nat,
    nombre: string,
    hipotesis: string,
    fechaInicio: string,
    estado: Estado,
    cicloId: Option<nat>,
    version: nat)

  /** The rows after `UPDATE ... SET estado = e, version = version + 1 WHERE id = pid`. */
  function ConEstado(filas: seq<Proyecto>, pid: int, e: Estado): (r: seq<Proyecto>)
    ensures |r| == |filas|
    ensures forall k :: 0 <= k < |filas| && filas[k].id == pid ==>
              r[k] == filas[k].(estado := e, version := filas[k].version + 1)
    ensures forall k :: 0 <= k < |filas| && filas[k].id != pid ==> r[k] == filas[k]
  {
    if |filas| == 0 then []
    else
      var cabeza := if filas[0].id == pid then filas[0].(estado := e, version := filas[0].version + 1) else filas[0];
      [cabeza] + ConEstado(filas[1..], pid, e)
  }

  class TablaProyectos {
    var filas: seq<Proyecto>
    var siguienteId: nat

    /** Ids grow with table order and stay below the next id; every version is at least 1. */
    ghost predicate Valid()
      reads this
    {
      && (forall k :: 0 <= k < |filas| ==> filas[k].id < siguienteId && filas[k].version >= 1)
      && (forall i, j :: 0 <= i < j < |filas| ==> filas[i].id < filas[j].id)
    }

    constructor ()
      ensures Valid() && filas == [] && siguienteId == 1
    {
      filas := [];
      siguienteId := 1;
    }

    /** `crear_proyecto`: a state outside the six allowed values is rejected
        before anything is written; otherwise the project is appended with
        version 1, attached to the active cycle with the latest start, if any. */
    method CrearProyecto(nombre: string, hipotesis: string, fechaInicio: string, estado: string,
                         ciclos: seq<Ciclos.Ciclo>) returns (r: Result<nat, string>)
      requires Valid()
      modifies this
      ensures Valid()
      ensures estado !in EstadosValidos ==> r.Err? && filas == old(filas) && siguienteId == old(siguienteId)
      ensures estado in EstadosValidos ==>
                var vigente := Ciclos.CicloVigente(ciclos);
                && r == Ok(old(siguienteId))
                && siguienteId == old(siguienteId) + 1
                && filas == old(filas) + [Proyecto(r.value, nombre, hipotesis, fechaInicio, ParseEstado(estado).value,
                                                   if vigente.Some? then Some(vigente.value.id) else None, 1)]
    {
      var e := ParseEstado(estado);
      if e.None? {
        return Err("Estado inválido: " + estado);
      }
      var vigente := Ciclos.CicloVigente(ciclos);
      var cicloId: Option<nat> := if vigente.Some? then Some(vigente.value.id) else None;
      var id := siguienteId;
      filas := filas + [Proyecto(id, nombre, hipotesis, fechaInicio, e.value, cicloId, 1)];
      siguienteId := siguienteId + 1;
      r := Ok(id);
    }

    /** `actualizar_estado_proyecto`: a state outside the six allowed values is
        rejected with nothing written; otherwise the row with that id takes the
        new state and its version grows by one, and the answer says whether a
        row matched. */
    method ActualizarEstadoProyecto(pid: int, nuevoEstado: string) returns (r: Result<bool, string>)
      requires Valid()
      modifies this
      ensures Valid() && siguienteId == old(siguienteId)
      ensures nuevoEstado !in EstadosValidos ==> r.Err? && filas == old(filas)
      ensures nuevoEstado in EstadosValidos ==>
                && filas == ConEstado(old(filas), pid, ParseEstado(nuevoEstado).value)
                && r == Ok(exists k :: 0 <= k < |old(filas)| && old(filas)[k].id == pid)
    {
      var e := ParseEstado(nuevoEstado);
      if e.None? {
        return Err("Estado inválido: " + nuevoEstado);
      }
      var encontrado := exists k | 0 <= k < |filas| :: filas[k].id == pid;
      filas := ConEstado(filas, pid, e.value);
      r := Ok(encontrado);
    }
  }

  /** A successful update touches exactly one row when the id exists: that row
      has the new state and one more version, and every other row is as before. */
  lemma ActualizarUnaFila(filas: seq<Proyecto>, pid: int, e: Estado, k: int)
    requires forall i, j :: 0 <= i < j < |filas| ==> filas[i].id < filas[j].id
    requires 0 <= k < |filas| && filas[k].id == pid
    ensures ConEstado(filas, pid, e)[k].estado == e
    ensures ConEstado(filas, pid, e)[k].version == filas[k].version + 1
    ensures forall j :: 0 <= j < |filas| && j != k ==> ConEstado(filas, pid, e)[j] == filas[j]
  {
  }

  // ---------------------------------------------------------------------------
  // Hour estimate

  /** The two columns `estimar_tiempo_minimo` reads; `dias` is NULL when SQLite
      cannot read `fecha_inicio` as a date. */
  datatype FilaEstimacion = FilaEstimacion(estado: Estado, dias: Option<real>)

  /** Hours per day assumed for a state that is still being worked on. */
  function HorasPorDia(e: Estado): real {
    match e
    case Idea => 0.5
    case Mvp => 2.0
    case Active => 1.0
    case _ => 0.0
  }

  /** `estimar_tiempo_minimo`: no row gives 0; paused, killed and winner give 0;
      idea, mvp and active give days times 0.5, 2 and 1 hours, and a NULL day
      count there is the TypeError of multiplying None. */
  function EstimarTiempoMinimo(fila: Option<FilaEstimacion>): (r: Result<real, string>)
    ensures fila.None? ==> r == Ok(0.0)
    ensures fila.Some? && fila.value.estado in {Paused, Killed, Winner} ==> r == Ok(0.0)
    ensures fila.Some? && fila.value.estado in {Idea, Mvp, Active} ==>
              (r.Err? <==> fila.value.dias.None?) &&
              (r.Ok? ==> r.value == fila.value.dias.value * HorasPorDia(fila.value.estado))
  {
    if fila.None? then Ok(0.0)
    else
      var f := fila.value;
      match f.estado
      case Idea | Mvp | Active =>
        if f.dias.None? then Err("TypeError: None * float") else Ok(f.dias.value * HorasPorDia(f.estado))
      case _ => Ok(0.0)
  }

  // ---------------------------------------------------------------------------
  // Zombie projects

  /** The actions the `accion_tomada` column of `decisiones` allows: the
      column is NOT NULL and its CHECK constraint names these three. */
  const AccionesValidas: set<string> := {"aceptada", "rechazada", "pospuesta"}

  /** A row of `decisiones` (the columns zombie detection reads). */
  datatype RegistroDecision = RegistroDecision(proyectoId: int, fecha: string)

  function FechasDecisiones(ds: seq<RegistroDecision>, pid: int): (r: seq<string>)
    ensures forall f :: f in r <==> exists k :: 0 <= k < |ds| && ds[k].proyectoId == pid && ds[k].fecha == f
  {
    if |ds| == 0 then []
    else
      var resto := FechasDecisiones(ds[1..], pid);
      assert forall k :: 1 <= k < |ds| ==> ds[k] == ds[1..][k - 1];
      (if ds[0].proyectoId == pid then [ds[0].fecha] else []) + resto
  }

  /** The text of the latest activity: the larger of the latest metric date and
      the latest decision date, or the start date when there is neither. */
  function UltimaActividad(p: Proyecto, ms: seq<Metricas.Metrica>, ds: seq<RegistroDecision>): string {
    var um := Metricas.MaxFecha(Metricas.Fechas(Metricas.DelProyecto(ms, p.id)));
    var ud := Metricas.MaxFecha(FechasDecisiones(ds, p.id));
    if um.None? && ud.None? then p.fechaInicio
    else if um.None? then ud.value
    else if ud.None? then um.value
    else Metricas.MaxTexto(um.value, ud.value)
  }

  /** The date part of a stored timestamp: the text before the first space, then before the first `T`. */
  function FechaLimpia(s: string): (r: string)
    ensures ' ' !in r && 'T' !in r
    ensures |r| <= |s| && r == s[..|r|]
  {
    var a := Split(s, ' ')[0];
    SplitPrimero(s, ' ');
    SplitPrimero(a, 'T');
    Split(a, 'T')[0]
  }

  /** A text with no space and no `T` is already clean. */
  lemma FechaLimpiaSinSeparadores(s: string)
    requires ' ' !in s && 'T' !in s
    ensures FechaLimpia(s) == s
  {
    SplitNoSep(s, ' ');
    SplitNoSep(s, 'T');
  }

  /** The first piece of a split is a prefix of the string. */
  lemma {:induction false} SplitPrimero(s: string, sep: char)
    ensures |Split(s, sep)[0]| <= |s| && Split(s, sep)[0] == s[..|Split(s, sep)[0]|]
  {
    if |s| > 0 && s[0] != sep {
      SplitPrimero(s[1..], sep);
    }
  }

  /** Seconds in a day; `ahora` counts seconds so that day `d` starts at second `d * 86400`. */
  const SegundosDia: int := 86400

  /** Whole days from the start of day `dia` to the instant `ahora`, rounded down. */
  function DiasTranscurridos(dia: int, ahora: int): int {
    (ahora - dia * SegundosDia) / SegundosDia
  }

  predicate EsCandidato(p: Proyecto) {
    p.estado in {Active, Mvp, Idea}
  }

  /** A still-open project whose latest activity date parses, as
      `strptime(..., '%Y-%m-%d')` reads it, and lies at least `umbral` whole
      days before `ahora`. */
  predicate EsZombie(p: Proyecto, ms: seq<Metricas.Metrica>, ds: seq<RegistroDecision>, umbral: int, ahora: int) {
    && EsCandidato(p)
    && var dia := Fechas.ParseStrptime(FechaLimpia(UltimaActividad(p, ms, ds)));
       dia.Some? && DiasTranscurridos(dia.value, ahora) >= umbral
  }

  /** A latest activity stored with an unpadded month or day ("2024-1-5") is
      read as that date, so the project is judged by its age like any other. */
  lemma ZombieSinCeros(p: Proyecto, ms: seq<Metricas.Metrica>, ds: seq<RegistroDecision>, umbral: int, ahora: int,
                       f: Fechas.Fecha)
    requires Fechas.Valida(f) && EsCandidato(p) && UltimaActividad(p, ms, ds) == Fechas.TextoSinCeros(f)
    ensures EsZombie(p, ms, ds, umbral, ahora) <==> DiasTranscurridos(Fechas.Ordinal(f), ahora) >= umbral
  {
    Fechas.TextoSinCerosSinSeparadores(f);
    FechaLimpiaSinSeparadores(Fechas.TextoSinCeros(f));
    Fechas.StrptimeSinCeros(f);
  }

  function Candidatos(ps: seq<Proyecto>): (r: seq<Proyecto>)
    ensures forall p :: p in r <==> p in ps && EsCandidato(p)
  {
    if |ps| == 0 then [] else (if EsCandidato(ps[0]) then [ps[0]] else []) + Candidatos(ps[1..])
  }

  /** The ids of the zombie projects among `ps`, in order. */
  function IdsZombie(ps: seq<Proyecto>, ms: seq<Metricas.Metrica>, ds: seq<RegistroDecision>, umbral: int, ahora: int): (r: seq<nat>)
    ensures forall id :: id in r <==> exists p :: p in ps && p.id == id && EsZombie(p, ms, ds, umbral, ahora)
  {
    if |ps| == 0 then []
    else
      var ini := ps[..|ps| - 1];
      var p := ps[|ps| - 1];
      assert forall q :: q in ps <==> q in ini || q == p;
      IdsZombie(ini, ms, ds, umbral, ahora) + (if EsZombie(p, ms, ds, umbral, ahora) then [p.id] else [])
  }

  /** Extending the walked prefix by one project extends the ids by that
      project's id exactly when it is a zombie. */
  lemma IdsZombiePaso(ps: seq<Proyecto>, i: nat, ms: seq<Metricas.Metrica>, ds: seq<RegistroDecision>, umbral: int, ahora: int)
    requires i < |ps|
    ensures IdsZombie(ps[..i + 1], ms, ds, umbral, ahora)
            == IdsZombie(ps[..i], ms, ds, umbral, ahora) + (if EsZombie(ps[i], ms, ds, umbral, ahora) then [ps[i].id] else [])
  {
    assert ps[..i + 1][..i] == ps[..i];
  }

  /** Only open projects are zombies, so filtering the candidates first loses none. */
  lemma ZombiesDeCandidatos(ps: seq<Proyecto>, ms: seq<Metricas.Metrica>, ds: seq<RegistroDecision>, umbral: int, ahora: int)
    ensures forall id :: id in IdsZombie(Candidatos(ps), ms, ds, umbral, ahora) <==>
              exists p :: p in ps && p.id == id && EsZombie(p, ms, ds, umbral, ahora)
  {
    var cs := Candidatos(ps);
    forall p | p in ps && EsZombie(p, ms, ds, umbral, ahora) ensures p in cs {
    }
  }

  /** `detectar_proyectos_zombie`: walks the idea, mvp and active projects and
      collects the ids of those idle for at least `umbral` days; a project whose
      activity date does not parse is skipped. */
  method DetectarProyectosZombie(proyectos: seq<Proyecto>, ms: seq<Metricas.Metrica>, ds: seq<RegistroDecision>,
                                 umbral: int, ahora: int) returns (zombies: seq<nat>)
    ensures zombies == IdsZombie(Candidatos(proyectos), ms, ds, umbral, ahora)
    ensures forall id :: id in zombies <==>
              exists p :: p in proyectos && p.id == id && EsZombie(p, ms, ds, umbral, ahora)
  {
    var candidatos := Candidatos(proyectos);
    zombies := [];
    var i := 0;
    while i < |candidatos|
      invariant 0 <= i <= |candidatos|
      invariant zombies == IdsZombie(candidatos[..i], ms, ds, umbral, ahora)
    {
      var p := candidatos[i];
      var ultima := UltimaActividad(p, ms, ds);
      var dia := Fechas.ParseStrptime(FechaLimpia(ultima));
      assert EsCandidato(p);
      IdsZombiePaso(candidatos, i, ms, ds, umbral, ahora);
      if dia.Some? {
        if DiasTranscurridos(dia.value, ahora) >= umbral {
          zombies := zombies + [p.id];
        }
      }
      i := i + 1;
    }
    assert candidatos[..i] == candidatos;
    ZombiesDeCandidatos(proyectos, ms, ds, umbral, ahora);
  }
}
