# Sistema 90D — a verified model of its rules

Sistema 90D is a small personal system for running side projects in 90-day
cycles. Projects record daily metrics (revenue, hours, conversions). The
system:

- classifies each project by revenue per hour;
- raises and auto-resolves data-quality alerts;
- flags idle ("zombie") projects;
- gives phase-dependent advice;
- can send a weekly analysis prompt to an LLM and store the decisions it proposes;
- keeps rotating backups of its SQLite database.

This project models the rules of that system in Dafny and proves what they
promise. It covers:

- the analysis and alert reconciliation of `database.py`, with the tables
  as in-memory sequences held by classes whose methods update them;
- the input validators of `validadores.py`;
- the sliding-window rate limiter;
- the guidance rules and the dashboard arithmetic;
- the request logic of the HTTP server (`app.py`);
- the text handling around the Gemini command-line tool and the LLM providers;
- the weekly analysis flow;
- the backup retention rules.

The clock, the database engine, subprocesses, SDKs and the file system are
not modelled. Their results are parameters:

- `ahora`/`hoy` are the clock readings;
- `loads` is `json.loads`;
- `inserta` says which inserts succeed;
- `Proceso` is how the subprocess ended;
- `dbExiste` says whether the database file exists.

Modules:

| module | file | models |
|---|---|---|
| `Valores` | valores.dfy | parsed JSON values, `Option`, `Result` |
| `Texto` | texto.dfy | Python's `strip`, `find`, `split`, `join`, slicing with negative bounds, `<` on strings, digits |
| `Fechas` | fechas.dfy | dates as day numbers: `date.fromisoformat`, `date.isoformat`, `datetime.strptime(s, '%Y-%m-%d')` |
| `Metricas` | metricas.dfy | the `metricas` table and its aggregates |
| `Alertas` | alertas.dfy | data validation, ROI classification, the `alertas` table |
| `Ciclos` | ciclos.dfy | phases of a 90-day cycle, the `ciclos_90d` table |
| `Proyectos` | proyectos.dfy | project states, the `proyectos` table, hour estimate, zombies |
| `Validadores` | validadores.dfy | `ValidadorMetricas`, `ValidadorProyectos` |
| `LimitadorTasa` | rate_limiter.dfy | `RateLimiter` |
| `Guia` | guia.dfy | advice by phase, contextual guide |
| `DatosDashboard` | dashboard_data.dfy | dashboard arithmetic and display flags |
| `App` | app.dfy | `_get_value`, `parse_post_data`, routing, two handlers |
| `Gemini` | gemini.dfy | `GeminiCLI`: command, output cleaning, fence extraction, result shape |
| `IntegracionIa` | integracion.dfy | provider choice and reply processing |
| `AnalisisGemini` | analisis.dfy | structure check, weekly flow, saving decisions |
| `Backup` | backup.dfy | backup names, cleanup, "backup due?" test, listing |

## Model

| member | source | states |
|---|---|---|
| `Validadores.ValidarIngresos` | validadores.py:25-33 | accepted exactly when `float()` read a number (an input) not above 1,000,000, negatives included; that number is returned; every error names `ingresos` and the text received |
| `Validadores.ValidarTiempo` | validadores.py:36-46 | accepted exactly when the number read lies in 0..24 inclusive, which is returned; errors name `tiempo_invertido` and the text |
| `Validadores.ValidarConversiones` | validadores.py:64-74 | accepted exactly when `int()` read an integer in 0..10,000 inclusive, which is returned; errors name `conversiones` and the text |
| `Validadores.ValidarFecha` | validadores.py:49-61 | accepted exactly when the text is a `YYYY-MM-DD` date whose midnight is at most 3600 s after now; the text itself is returned; errors name `fecha` |
| `Validadores.ValidarFechaMonotona` | validadores.py:55-59 | a date accepted at one instant is still accepted at any later instant |
| `Validadores.ValidarNombre` | validadores.py:80-86 | accepted exactly when the stripped name has 1..100 characters; returns the stripped name; errors name `nombre` |
| `Validadores.ValidarHipotesis` | validadores.py:89-95 | accepted exactly when the stripped text has 10..500 characters; returns the stripped text; errors name `hipotesis` |
| `Validadores.NombreNormalizado` | validadores.py:81-86 | an accepted name has no whitespace at either end, occurs in the input, and validating it again returns it unchanged |
| `Validadores.HipotesisNormalizada` | validadores.py:90-95 | the same for an accepted hypothesis |
| `Fechas.ParseFechaIso` | validadores.py:51 | the dashed `YYYY-MM-DD` form of `fromisoformat`: ten characters with dashes at positions 4 and 7; what it reads is stated by `ParseTextoFecha` and `ParseEsTextoFecha` |
| `Fechas.TextoFecha` | database.py:215 | `isoformat` writes ten characters with dashes at positions 4 and 7 |
| `Fechas.AnteriorTexto` | sistema_90d/dashboard_data.py:61 | an earlier date has the smaller `isoformat` text |
| `Fechas.MesStrptime` | database.py:771 | `%m` (`1[0-2]`, `0[1-9]` or `[1-9]`, covering the whole field) reads a month 1..12 |
| `Fechas.DiaStrptime` | database.py:771 | `%d` (`3[01]`, `[12]\d`, `0[1-9]`, `[1-9]` or ` [1-9]`) reads a day 1..31 |
| `Fechas.OrdinalOrden` | database.py:287-289 | calendar order of valid dates is the order of their day numbers, and two dates have the same number exactly when they are the same date, so `(hoy - fecha_inicio).days` counts days |
| `Fechas.OrdinalSiguiente` | database.py:287-289 | the day after a valid date other than 9999-12-31 is valid, later, and numbered one more |
| `Fechas.UltimoDiaMaximo` | database.py:214-215 | 9999-12-31 is day 3652059 and every valid date lies in days 1..3652059 |
| `Fechas.FechaDeCampos` | database.py:771 | a year, month and day give a day number exactly when the year is 1..9999 and the day exists in that month, and then it is that date's number |
| `Fechas.ParseTextoFecha` | database.py:214-215 | what `isoformat` writes, `fromisoformat` reads back as the same day |
| `Fechas.ParseEsTextoFecha` | validadores.py:51 | every dashed `YYYY-MM-DD` text `fromisoformat` accepts is the zero-padded `isoformat` of a valid date, read as that date |
| `Fechas.TextoFechaOrden` | sistema_90d/dashboard_data.py:61 | `isoformat` texts compare as strings exactly as their days compare, so text comparisons of stored dates compare days |
| `Fechas.ParseStrptime` | database.py:771 | whatever `strptime('%Y-%m-%d')` reads is the day number of a valid date |
| `Fechas.StrptimeAceptaIso` | database.py:771 | every dashed `YYYY-MM-DD` text `fromisoformat` accepts, `strptime('%Y-%m-%d')` reads as the same day |
| `Fechas.StrptimeSinCeros` | database.py:771 | `strptime` also reads a one-digit month or day as that date, where `fromisoformat` refuses the text |
| `Fechas.StrptimeEjemplo` | database.py:771 | "2024-1-5" is 5 January 2024 for `strptime` and an error for `fromisoformat` |
| `Metricas.DelProyecto` | database.py:803-812 | a row is selected exactly when it is in the table with that project id, and as many times as the table holds it, so the length is `COUNT(*)`; never more rows than the table |
| `Metricas.SumaTiempoCero` | database.py:835 | with no negative hours, the total is non-negative, and 0 exactly when every row has 0 hours |
| `Metricas.MaxFecha` | database.py:506-513 | SQL `MAX(fecha)`: None exactly for no rows, otherwise a row's date that no other date exceeds |
| `Metricas.AgregarMetricas` | database.py:803-812 | `COUNT(*)` is the number of the project's rows; each `SUM` is NULL exactly when there are none, and otherwise the sum over the project's rows (revenue, hours, conversions) |
| `Metricas.Roi` | database.py:522-526 | revenue per hour when hours are positive (`roi * tiempo == ingresos`), 0 otherwise: no division by zero |
| `Metricas.RoiSigno` | database.py:522-526 | with positive hours the ROI is positive exactly for positive revenue and zero exactly for zero revenue |
| `Metricas.UltimaDe` | database.py:512 | `MAX(fecha)` of some rows: none exactly when there are no rows, else one row's date that no row's date exceeds |
| `Metricas.CalcularDashboardProyecto` | database.py:492-537 | count and sums (revenue, hours, conversions) of the project's rows, the ROI as `Metricas.Roi` of the two totals (a quotient only when time is positive), and the latest date as `Metricas.MaxFecha` of the rows' dates: none exactly when there are no rows, else a row's date that no row's date exceeds |
| `Alertas.ValidarDatosProyecto` | database.py:826-848 | `datos_insuficientes` exactly below 3 metrics (checked first); `sin_tiempo_registrado` exactly with 3 or more metrics and hours NULL or 0; valid otherwise |
| `Alertas.ValidaSobreMetricas` | database.py:803-848 | over the metrics table, a project is valid exactly when it has at least 3 rows and one of them has non-zero hours |
| `Alertas.ClasificarMonotono` | database.py:942-953 | a higher ROI never gets a lower classification; `scale` exactly above 50, `kill` exactly at 0 or below |
| `Alertas.Limpiadas` | database.py:704-726 | exactly the open alerts of the project whose type is not reported are resolved automatically; every other row is unchanged |
| `Alertas.ResueltaPorId` | database.py:690-702 | only the row with the given id is marked resolved, with the given automatic flag |
| `Alertas.Pendientes` | database.py:710-714 | the open alerts of a project, exactly |
| `Alertas.PasoLimpieza` | database.py:716-723 | one iteration of the cleanup loop extends the set of handled alerts, resolving the one handled if its type is obsolete |
| `Alertas.ReconciliarInvalida` | database.py:909-920 | on invalid data an alert is added only when none of that type is open, with severity `warning` exactly for missing time; afterwards the only open alerts of the project have that type, and one is open |
| `Alertas.ReconciliarValida` | database.py:930-932 | on valid data no alert of the project stays open |
| `Alertas.ReconciliarMarco` | database.py:904-932 | alerts of other projects, resolved alerts and open alerts of the reported type keep their rows |
| `Alertas.ReconciliarIdempotente` | database.py:904-932 | analysing the same data a second time leaves the table as it was after the first |
| `Alertas.LimpiadasSinDuplicados` | database.py:704-726 | resolving alerts cannot create two open alerts of one type for one project |
| `Alertas.AgregarSinDuplicados` | database.py:915-917 | adding an alert whose type is not open for its project creates no duplicate |
| `Alertas.ReconciliarSinDuplicados` | database.py:909-932 | the analysis preserves "no two open alerts of one type per project" |
| `Alertas.ReconciliarUnaAbierta` | database.py:909-920 | on invalid data, starting without duplicates, the project ends with exactly one open alert |
| `Alertas.AnalizarClasifica` | database.py:934-962 | a classified answer only comes from valid data (3+ metrics, non-zero hours); its ROI is the guarded dashboard ROI and its class follows the strict 50/10/0 thresholds |
| `Alertas.TablaAlertas.CrearAlerta` | database.py:664-675 | appends an open alert with the next id |
| `Alertas.TablaAlertas.ResolverAlerta` | database.py:690-702 | resolves the row with that id; returns whether some row had it |
| `Alertas.TablaAlertas.LimpiarAlertasObsoletas` | database.py:704-726 | the loop over the open alerts leaves the table equal to `Limpiadas` |
| `Alertas.TablaAlertas.AnalizarProyectoConValidacion` | database.py:894-962 | the table becomes the reconciliation of the validation outcome and the answer is the analysis of the metrics |
| `Ciclos.CalcularFaseActual` | database.py:272-332 | day = days since start + 1; phases end on days 14, 45 and 75; remaining = max(0, 91 - day), so day + remaining = 91 up to day 91 and 0 from then on; four tasks of the phase |
| `Ciclos.AvanceDeUnDia` | database.py:290-330 | one day later the day grows by one, remaining days shrink by one down to 0, and the phase never goes back |
| `Ciclos.Desactivados` | database.py:221 | every cycle row is kept, deactivated |
| `Ciclos.CicloActivo` | database.py:236-258 | None exactly when no cycle is active; otherwise the first active row |
| `Ciclos.CicloVigente` | database.py:362-364 | None exactly when no cycle is active; otherwise an active cycle with the latest start |
| `Ciclos.TablaCiclos.CrearCiclo90d` | database.py:200-233 | a start date that does not parse, or one whose 90th day after lies past 9999-12-31 (`OverflowError`), is an error and leaves the table alone; otherwise (no date meaning today) all cycles are deactivated and one active cycle from the start to start + 90 is appended with the next id |
| `Ciclos.UnicoCicloActivo` | database.py:220-227 | after creation the new cycle is the only active one |
| `Proyectos.ParseEstado` | database.py:355-357 | a state parses exactly when it is one of the six allowed values |
| `Proyectos.ParseTextoEstado` | database.py:355 | every state's name parses back to it and is an allowed value |
| `Proyectos.ConEstado` | database.py:441-445 | the rows with the id take the new state and version + 1; every other row is unchanged |
| `Proyectos.TablaProyectos.CrearProyecto` | database.py:339-371 | an invalid state is rejected before anything is written; otherwise the project is appended with version 1, attached to the active cycle with the latest start |
| `Proyectos.TablaProyectos.ActualizarEstadoProyecto` | database.py:434-446 | an invalid state is rejected with nothing written; otherwise the update above, returning whether a row matched |
| `Proyectos.ActualizarUnaFila` | database.py:441-446 | with unique ids, a successful update touches exactly the row of that id and bumps its version by exactly 1 |
| `Proyectos.EstimarTiempoMinimo` | database.py:851-891 | no row gives 0; paused, killed and winner give 0; idea, mvp and active give days × 0.5, 2 and 1, and a NULL day count there raises |
| `Proyectos.FechasDecisiones` | database.py:753-754 | exactly the decision dates of the project |
| `Proyectos.FechaLimpia` | database.py:770 | the date part is a prefix of the stored text holding no space and no `T` |
| `Proyectos.Candidatos` | database.py:738-742 | exactly the idea, mvp and active projects |
| `Proyectos.IdsZombie` | database.py:745-779 | an id is listed exactly when its project is a zombie: open, with a latest activity whose cleaned date `strptime('%Y-%m-%d')` reads (unpadded month or day included) at least `umbral` whole days before now |
| `Proyectos.ZombieSinCeros` | database.py:770-775 | a latest activity stored unpadded, such as "2024-1-5", is read as that date, and the project is a zombie exactly when that day is at least `umbral` days old |
| `Proyectos.DetectarProyectosZombie` | database.py:729-782 | the loop over the candidates returns exactly the ids of open (idea, mvp, active) projects whose latest activity (metric, decision, else start date) `strptime` reads and is at least `umbral` whole days old; dates it cannot read are skipped |
| `LimitadorTasa.Recientes` | sistema_90d/rate_limiter.py:25 | the kept timestamps are exactly those with `ahora - t < ventana` |
| `LimitadorTasa.RecientesIdentidad` | sistema_90d/rate_limiter.py:25 | a history already inside the window is kept whole |
| `LimitadorTasa.Paso` | sistema_90d/rate_limiter.py:17-31 | allowed exactly when the pruned history is shorter than `limite`; an allowed call appends exactly `ahora`, a denied one nothing; other actions are untouched |
| `LimitadorTasa.RateLimiter.Permitir` | sistema_90d/rate_limiter.py:17-31 | the answer and the new map are those of `Paso` |
| `LimitadorTasa.PasoAcotado` | sistema_90d/rate_limiter.py:25-31 | with a fixed non-negative limit, a history never grows beyond it |
| `LimitadorTasa.PasoDenegado` | sistema_90d/rate_limiter.py:27-28 | a denied call records nothing new, and at least `limite` entries remain |
| `LimitadorTasa.RafagaPermitida` | sistema_90d/rate_limiter.py:25-31 | up to `limite` calls at one instant are all allowed, each adding one entry |
| `LimitadorTasa.RafagaLimite` | sistema_90d/test_robustez.py:75-83 | `limite` calls at one instant are allowed and the next is denied |
| `Guia.MayusculasIdempotente` | sistema_90d/guia.py:40 | `upper` applied twice is `upper` once |
| `Guia.Consejos` | sistema_90d/guia.py:10-35 | every category offers four pieces of advice |
| `Guia.CategoriaSinMayusculas` | sistema_90d/guia.py:40-48 | the category does not depend on letter case |
| `Guia.CategoriaPrioridad` | sistema_90d/guia.py:43-48 | MVP wins over every later keyword, and IDEACIÓN is chosen exactly when no keyword occurs |
| `Guia.ObtenerConsejoPorFase` | sistema_90d/guia.py:37-51 | the advice is one of the selected category's list |
| `Guia.ContarActivos` | sistema_90d/guia.py:57 | the count never exceeds the number of projects |
| `Guia.ContarActivosTodos` | sistema_90d/guia.py:57 | every project counts exactly when none is killed or winner |
| `Guia.Recomendaciones` | sistema_90d/guia.py:60-64 | more than 3 gives exactly the "too many" message, 0 exactly the "empty" message, 1..3 none |
| `Guia.ObtenerGuiaContextual` | sistema_90d/guia.py:53-71 | the active count, advice from the phase's category, the phase name unchanged, and the recommendations for the count |
| `Guia.IdeacionSinClaves` | sistema_90d/guia.py:43-48 | a name that upper-cases letter by letter into text lacking an adjacent letter pair of every keyword gets IDEACIÓN |
| `Guia.FasesDelCicloDanIdeacion` | sistema_90d/guia.py:43-50 | the four phase names the cycle produces all draw advice from IDEACIÓN |
| `DatosDashboard.InicioDelCiclo` | sistema_90d/dashboard_data.py:19-27 | today when no start is stored; the stored date when it parses; an error when it does not |
| `DatosDashboard.DiaActual` | sistema_90d/dashboard_data.py:28 | whole days since the start's midnight, rounded down, plus one |
| `DatosDashboard.CicloDelPanel` | sistema_90d/dashboard_data.py:28-30 | remaining = max(0, 90 - day); progress = min(100, day/90 × 100), never above 100, exactly 100 from day 90 |
| `DatosDashboard.CicloComoBaseDeDatos` | sistema_90d/dashboard_data.py:28-29 | same day as `calcular_fase_actual`, but one fewer remaining day up to day 90 |
| `DatosDashboard.ProgresoMonotono` | sistema_90d/dashboard_data.py:30 | progress never falls as time passes |
| `DatosDashboard.FaseComoCiclo` | sistema_90d/dashboard_data.py:33-40 | the dashboard names the same phase as `calcular_fase_actual` on every day |
| `DatosDashboard.DesdeFecha` | sistema_90d/dashboard_data.py:61 | exactly the rows dated on or after the window start (text comparison), each as many times as the table holds it; never more rows than the table |
| `DatosDashboard.UltimaFecha` | sistema_90d/dashboard_data.py:113 | 'Nunca' when every row's date is empty (or there are no rows); once some date is non-empty, the greatest date of the rows |
| `DatosDashboard.CalcularMetricas30` | sistema_90d/dashboard_data.py:54-67 | the window's sums (0 for none), the revenue per hour as `Metricas.Roi` of those sums (a quotient only when hours are positive), and the latest date |
| `DatosDashboard.PorcentajeAdherencia` | sistema_90d/dashboard_data.py:78 | percentage × 30 = active days × 100 |
| `DatosDashboard.EstadoDe` | sistema_90d/dashboard_data.py:118 | excelente exactly at ≥ 80, buena exactly in [50, 80), baja exactly below 50 |
| `DatosDashboard.DiasActivos` | sistema_90d/dashboard_data.py:73-77 | distinct dates never exceed the rows, and are at least 1 when there are rows |
| `DatosDashboard.AdherenciaEnDias` | sistema_90d/dashboard_data.py:78-118 | excelente exactly from 24 active days, buena for 15..23, baja below 15 |
| `DatosDashboard.ObtenerEstadoSistema` | sistema_90d/dashboard_data.py:12-127 | fails exactly when the stored start is not a date or lies less than 90 days before 9999-12-31 (`fecha_fin` overflows); otherwise the cycle, the phase of its current day, the 30-day metrics, and the adherence block built from the distinct active days in the window (with its percentage and status) |
| `DatosDashboard.Truncar` | sistema_90d/dashboard_data.py:139 | `int()` on a float rounds toward zero |
| `DatosDashboard.MarcasDe` | sistema_90d/dashboard_data.py:138-140 | `es_activo` exactly for active, mvp and idea; `dias_display` 0 when the days are NULL or 0, else `int()` of them, truncated toward zero for negative days (a future start) as for positive ones; '-' exactly for a missing, empty or '-' date, else the stored date |
| `DatosDashboard.EnriquecerResumenes` | sistema_90d/dashboard_data.py:137-140 | every row gains its flags in place and keeps its other columns |
| `App.GetValue` | app.py:37-48 | the loop returns the value reached by walking the dotted keys; None on a missing key or once a non-dictionary is reached with keys left |
| `App.BuscarConcat` | app.py:41-48 | walking `a` then `b` is walking `a + b` |
| `App.BuscarCorte` | app.py:46-47 | once a non-dictionary is reached, any further key gives None |
| `App.BuscarAnidado` | app.py:41-48 | walking the keys a value was nested under finds it |
| `App.RutaAnidada` | app.py:39-48 | the same through the dotted text, when no key contains a dot |
| `App.Aplanar` | app.py:134 | a single value exactly when one was sent, and the values are kept |
| `App.ParsePostData` | app.py:118-137 | the same keys as parsed, each flattened |
| `App.AplanarSinPerdida` | app.py:133-135 | every field's values can be read back from the result |
| `App.IntDeDecimal` | app.py:158 | `int(str(n)) == n` when `str(n)` has at most 4300 digits; past that `int()` raises |
| `App.IntSinSigno` | app.py:158 | `int()` of a decimal-digit segment is its Unicode digit value up to 4300 digits, and a ValueError beyond (`sys.int_info.default_max_str_digits`) |
| `App.IntDeDigitos` | app.py:156-158 | `int()` of a segment passing `isdigit` is its value exactly when the digits are decimal and at most 4300, a ValueError otherwise |
| `App.IntAcotado` | app.py:586 | a positive id `int()` reads has at most 4300 digits, so the redirect's `str()` can write it |
| `App.IntConSeparador` | app.py:547 | `int()` skips only its own whitespace (`str.isspace` minus U+001C..U+001F): a separator at either end makes it raise |
| `App.IntSeparadorEjemplos` | app.py:547 | `int('\x1c5')` and `int('5\x1f')` raise |
| `App.IntEspacioDelante` | app.py:547 | whitespace `int()` skips in front of the text does not change what it reads |
| `App.IntSiguienteLinea` | app.py:547 | `int('\x855')` is 5: the next-line character U+0085 is skipped |
| `App.SegmentoNoDecimal` | app.py:155-160 | every last segment passing `isdigit` but not `isdecimal` crashes the route as written and gets a 404 once corrected |
| `App.SegmentosComoPython` | app.py:156 | the segments taken are Python's `split('/')[-1]` and `[-2]` |
| `App.RutearGet` | app.py:145-172 | as written: a project page exactly for a last segment of at most 4300 decimal digits; a ValueError exactly for a segment passing `isdigit` that is not decimal or is longer |
| `App.RutearGetComoPython` | app.py:155-160 | under `/proyecto/` the route is `isdigit` then `int()`: a project page for the number `int()` reads, and the ValueError exactly when `int()` raises on a segment passing `isdigit` |
| `App.RutearGetCorregido` | app.py:145-172 | never raises; a project page exactly for a last segment `int()` reads (at most 4300 decimal digits) |
| `App.RutearGetCorregidoConserva` | app.py:155-160 | the correction changes only the requests that crashed, which now get a 404 |
| `App.SuperindiceSinRespuesta` | app.py:156-158 | `/proyecto/²` passes `isdigit` and `int()` raises |
| `App.DingbatSinRespuesta` | app.py:156-158 | the string logic of `do_GET` on a path `/proyecto/❶`: the segment passes `isdigit` without being decimal, so `int()` raises (`http.server` decodes the request line as Latin-1 and `urlparse` does not unquote, so no request delivers ❶ itself) |
| `App.SegmentoDecimal` | app.py:155-160 | a last segment of at most 4300 decimal digits from any script opens the project whose number they spell; a longer one crashes as written and gets a 404 once corrected |
| `App.SegmentoLargoSinRespuesta` | app.py:156-158 | `/proyecto/` followed by 4301 ones passes `isdigit` and `int()` raises; the corrected routing answers 404 |
| `App.BengaliAbreProyecto` | app.py:155-160 | the string logic of `do_GET` on a path `/proyecto/৩` (Bengali three): it opens project 3 (no request delivers ৩ itself, since the request line is decoded as Latin-1 and not unquoted) |
| `App.UbicacionRutea` | app.py:586 | the redirect `/proyecto/<n>` routes back to project n whenever n has at most 4300 digits, as every id `int()` reads does |
| `App.RutearPost` | app.py:174-200 | as written: an update exactly for `/proyecto/<seg>/actualizar` with `seg` at most 4300 decimal digits; a ValueError exactly when `seg` passes `isdigit` but is not decimal or is longer |
| `App.RutearPostComoPython` | app.py:193-198 | the POST route is `isdigit` then `int()`: an update for the number `int()` reads, and the ValueError exactly when `int()` raises on a segment passing `isdigit` |
| `App.SuperindicePostSinRespuesta` | app.py:193-196 | POST `/proyecto/²/actualizar` passes `isdigit` and `int()` raises; the corrected routing answers 404 |
| `App.RutearPostCorregido` | app.py:193-198 | never raises; equal to `RutearPost` except that the crashing paths get a 404 |
| `App.ActualizarRutea` | app.py:193-196 | the update form's path routes to the project it updates, for every id of at most 4300 digits |
| `App.ProyectoId` | app.py:547 | a missing `proyecto_id` reads as 0; several values raise; a single value is read exactly when `int()` reads it, as that number |
| `App.EstadoPorDecision` | app.py:569-579 | kill → killed, scale → winner, pause → paused, exactly; anything else moves nothing |
| `App.ResponderDecisionIa` | app.py:544-590 | 400 exactly for an id ≤ 0; a redirect exactly when the id is positive and stored, the fields are single values and the action is aceptada, rechazada or pospuesta (the table's CHECK and foreign key, database.py:32, 113, 116); every other case is a 500 recording nothing; a recorded decision has origin 'ia', an allowed action, the rejection reason exactly when rejected, a state change only when accepted, and a redirect to the project |
| `App.SeparadorEnIdDa500` | app.py:545-590 | a posted `proyecto_id` of `%1C5` makes `int()` raise, so the answer is a 500 and nothing is recorded |
| `App.ResponderDecisionValida` | app.py:568-586 | a state an accepted decision asks for is always allowed, and the redirect routes to the project |
| `App.ActualizarProyectoHandler` | app.py:525-542 | an empty `estado` gives 400 and writes nothing; a valid one updates the state and redirects to the project; an invalid or repeated one gives 500 with nothing written |
| `Gemini.Comando` | gemini_integration.py:60-65 | `gemini`, then `-y` exactly when yolo, then `-p` and the prompt |
| `Gemini.Conservadas` | gemini_integration.py:137-147 | every kept line passes the filter and is an input line |
| `Gemini.ConservadasMiembros` | gemini_integration.py:138-147 | a line is kept exactly when it is an input line with no status message and not blank |
| `Gemini.ConservadasConcat` | gemini_integration.py:138-147 | the filter keeps the original order |
| `Gemini.LimpiarOutput` | gemini_integration.py:116-149 | the loop returns the cleaned text |
| `Gemini.StripJoin` | gemini_integration.py:149 | stripping a join of non-blank lines only trims its two ends |
| `Gemini.LimpioComoLineas` | gemini_integration.py:127-149 | the cleaned text is the join of the kept lines, the first without leading and the last without trailing whitespace, and splits back into exactly those lines |
| `Gemini.LimpioSinSistema` | gemini_integration.py:130-145 | no line of the result carries a status message or is blank |
| `Gemini.LimpioSinBordes` | gemini_integration.py:149 | the result has no whitespace at either end |
| `Gemini.LimpioIdempotente` | gemini_integration.py:116-149 | cleaning twice is cleaning once |
| `Gemini.EjecutarPrompt` | gemini_integration.py:77-114 | success exactly when the process finished with exit code 0, with the cleaned stdout and no error; a non-zero exit, timeout or exception gives an empty answer and an error; no JSON yet |
| `Gemini.PromptJson` | gemini_integration.py:157-160 | the prompt comes first, the JSON-only instruction last, and nothing else is added |
| `Gemini.ExtraerConCierre` | gemini_integration.py:172-181 | with a closing fence, the piece is exactly the text strictly between the fences, as written and corrected alike |
| `Gemini.ExtraerSinCierre` | gemini_integration.py:174-176 | without a closing fence, as written the piece loses its last character; corrected it reads to the end |
| `Gemini.FenceAbiertaAsiEscrito` | gemini_integration.py:172-176 | an unclosed JSON fence: the text as written parses the body minus its last character |
| `Gemini.FenceAbiertaEjemplo` | gemini_integration.py:172-176 | on "```json{}" the code as written hands "{" to the parser; the corrected extraction hands "{}" |
| `Gemini.TrozoSinFence` | gemini_integration.py:174-180 | the piece after the opening fence is part of the answer and holds no fence |
| `Gemini.ExtraidoEsTrozo` | gemini_integration.py:172-181 | the extracted text is part of the answer, fence-free when the answer has a fence |
| `Gemini.EjecutarConJson` | gemini_integration.py:151-195 | a failed run is returned unchanged; after a success, `json` is the parse of the text extracted as written (`ExtraerJson`), or a parse error |
| `Gemini.EjecutarConJsonCorregido` | gemini_integration.py:151-195 | the same step with an unclosed fence read to the end of the answer (`ExtraerJsonCorregido`) |
| `Gemini.FenceAbiertaSinParseo` | gemini_integration.py:172-192 | for a successful answer "```json{}" and a parser rejecting "{", the code as written reports the answer as not JSON while the correction parses "{}" |
| `Gemini.ParseadoSoloConExito` | gemini_integration.py:164-187 | an answer is parsed only after a successful run |
| `IntegracionIa.DetectarProveedor` | sistema_90d/integracion_ia.py:37-43 | anthropic exactly when its key and SDK are there; else openai exactly when its key and SDK are there; else manual |
| `IntegracionIa.ProcesarRespuestaIa` | sistema_90d/integracion_ia.py:100-127 | always automatic with the provider and full text; `datos` exactly when the extraction starts with `{` or `[` and parses; the fallback message exactly otherwise |
| `IntegracionIa.AnalizarAutomaticamente` | sistema_90d/integracion_ia.py:45-71 | manual, with the prompt, exactly for the manual provider; error, with the prompt and message, exactly when the call raises; otherwise the processed reply |
| `IntegracionIa.ExtraerIaBloqueJson` | sistema_90d/integracion_ia.py:104-105 | a "```json" block closed by a plain fence (no fourth backtick) gives the stripped text between, the same as the corrected Gemini extraction |
| `IntegracionIa.ExtraerIaSinCierre` | sistema_90d/integracion_ia.py:104-105 | an unclosed "```json" block reads to the end, as the corrected Gemini extraction does |
| `IntegracionIa.ExtraerIaBloqueSimple` | sistema_90d/integracion_ia.py:106-107 | with bare fences only, the text between the first two, as in Gemini |
| `IntegracionIa.ExtraerIaSinFence` | sistema_90d/integracion_ia.py:103 | a reply without fences is used whole |
| `IntegracionIa.ExtraerIaTrozo` | sistema_90d/integracion_ia.py:103-107 | the text handed to the parser is part of the reply, fence-free when the reply has a fence |
| `AnalisisGemini.Pertenece` | analisis_ia_gemini.py:97 | `in`: raises exactly on values that are not dicts, lists or strings; key membership for a dict, element membership for a list |
| `AnalisisGemini.TodasPresentes` | analisis_ia_gemini.py:97 | true exactly when every key is in the value; raises exactly on a non-iterable value with keys to check |
| `AnalisisGemini.ProyectosValidos` | analisis_ia_gemini.py:105-107 | true exactly when every project has id, decision and justificacion; raises exactly at a first non-iterable project |
| `AnalisisGemini.ValidarEstructura` | analisis_ia_gemini.py:93-109 | true exactly for a dict with the three keys whose `proyectos` is a list of complete projects; false when a key is missing |
| `AnalisisGemini.Fila` | analisis_ia_gemini.py:120-127 | the row takes id, decision and justificacion from the project, origin 'ia_gemini', today's date and the `accion_tomada` value the INSERT binds |
| `AnalisisGemini.Guardadas` | analisis_ia_gemini.py:116-129 | never more rows than projects |
| `AnalisisGemini.GuardadasMiembros` | analisis_ia_gemini.py:116-129 | a row is written exactly for each project whose insert succeeds, from that project |
| `AnalisisGemini.GuardadasConcat` | analisis_ia_gemini.py:116-129 | a failed insert does not stop the loop: rows for a list are the rows for its parts |
| `AnalisisGemini.GuardadasTodas` | analisis_ia_gemini.py:116-129 | when every insert succeeds, each project gets its row, in order |
| `AnalisisGemini.GuardadasAsiEscrito` | analisis_ia_gemini.py:120-127 | as written the INSERT leaves `accion_tomada` NULL, which the column's NOT NULL constraint (database.py:113) refuses, so no project gets a row |
| `AnalisisGemini.GuardadasCorregido` | analisis_ia_gemini.py:116-129 | with `accion_tomada` supplied, every bindable project the database otherwise accepts gets its row, in order, marked 'pospuesta' |
| `AnalisisGemini.TablaDecisiones.GuardarDecisionesIa` | analisis_ia_gemini.py:111-131 | for a given `accion_tomada` value: commits exactly when every project is a dict with an `id`, adding exactly the rows whose insert succeeds; the warning handler reads `proyecto['id']` again, so any other project escapes and the transaction rolls back, writing nothing |
| `AnalisisGemini.ValidadaSinCaida` | analisis_ia_gemini.py:105-129 | a validated analysis whose projects are dicts never raises while saving |
| `AnalisisGemini.ValidadaConListaCae` | analisis_ia_gemini.py:105-129 | a project written as the list of the three key names passes the check but makes the save raise |
| `AnalisisGemini.AnalisisSemanalAutomatico` | analisis_ia_gemini.py:20-91 | CLI failure, no parsed JSON and a structure found invalid each return `success=False` with the prompt; a structure check that raises is an error; success exactly when all checks pass and the save commits; the table never changes, since every insert as written is refused |
| `Backup.DosCifras` | sistema_90d/backup.py:58 | a two-digit field: two digits spelling the number |
| `Backup.FechaTexto` | sistema_90d/backup.py:58 | `%Y%m%d` is digits spelling year × 10000 + month × 100 + day |
| `Backup.HoraTexto` | sistema_90d/backup.py:58 | `%H%M%S` is six digits spelling hour × 10000 + minute × 100 + second |
| `Backup.NombreBackup` | sistema_90d/backup.py:58-62 | the name starts with `sistema_` and ends with `.gz` exactly when compressing |
| `Backup.NombreCoincideGlob` | sistema_90d/backup.py:58-90 | every name a backup gets matches the `sistema_*.db*` glob of the cleanup and listing |
| `Backup.MarcaLongitud` | sistema_90d/backup.py:58 | with a four-digit year the stamp has 15 characters |
| `Backup.AntesQueClaves` | sistema_90d/backup.py:58 | the order of instants is the order of the numbers the two stamp halves spell |
| `Backup.NombresCronologicos` | sistema_90d/backup.py:89-90 | with four-digit years, a backup taken earlier has a smaller name, so name order is "oldest first" |
| `Backup.Insertar` | sistema_90d/backup.py:64 | the directory afterwards holds exactly the old names and the new one |
| `Backup.InsertarOrdenada` | sistema_90d/backup.py:90 | the directory stays a sorted listing after a backup is added |
| `Backup.QuitarPrimero` | sistema_90d/backup.py:96-97 | unlinking the oldest file leaves the rest of the sorted listing |
| `Backup.AEliminar` | sistema_90d/backup.py:92-94 | `backups[:-max]` when there are more than max, else nothing: a prefix; exactly count - max files for max ≥ 1; none for max = 0 |
| `Backup.EliminadosMasAntiguos` | sistema_90d/backup.py:89-94 | in a sorted listing every deleted name precedes every kept one |
| `Backup.Listado` | sistema_90d/backup.py:177-188 | one entry per backup: a name is listed exactly when it is a backup in the directory, and each entry's `fecha` is that file's own mtime |
| `Backup.ListadoDecreciente` | sistema_90d/backup.py:177-188 | newest name first, and `comprimido` exactly for names ending in `.gz` |
| `Backup.SistemaBackup.CrearBackup` | sistema_90d/backup.py:41-79 | a missing database is an error and changes nothing; otherwise the named file joins the directory, with mtime now for a gzip copy and the database file's own mtime for a `shutil.copy2` copy |
| `Backup.SistemaBackup.LimpiarBackupsAntiguos` | sistema_90d/backup.py:81-100 | the loop removes exactly the files of `backups[:-max]` from the sorted listing, keeping the newest |
| `Backup.SistemaBackup.BackupAutomaticoSiNecesario` | sistema_90d/backup.py:102-134 | no backups: a compressed one is created with mtime now and nothing is cleaned up; at least `intervalo` hours since the newest: create with mtime now, clean up to 30, true; otherwise false and nothing changes; a missing database is an error that writes nothing |
| `Backup.InsertarAlFinal` | sistema_90d/backup.py:113 | a name newer than every backup sorts to the end of the listing |
| `Backup.RecienCreadoNoNecesita` | sistema_90d/backup.py:121-134 | right after a backup newer than every file, it is the newest file kept and a call less than `intervalo` hours later makes no backup |
| `Backup.SistemaBackup.ListarBackups` | sistema_90d/backup.py:170-190 | the loop returns the listing above |

## Left out

- I/O is not modelled: SQLite connections and transactions, the HTTP
  sockets, templates, static files and CSV export, the `gemini`
  subprocess, the Anthropic and OpenAI SDK calls, gzip and file copies.
  Their outcomes are parameters.
- Money, hours and ROI are exact `real`s. IEEE floating point is not
  modelled: rounding, NaN slipping past the validators' comparisons, the
  `round(...)` of the dashboard.
- SQL date functions (`julianday`, `date('now', '-30 days')`) are replaced
  by day numbers and second counts passed in.
- `Fechas.ParseFechaIso` models only the dashed `YYYY-MM-DD` form.
  Since Python 3.11, `fromisoformat` also accepts the basic form
  (`20240105`) and ISO week dates (`2024-W01`, `2024-W01-1`, `2024W011`).
  The model refuses these. `Validadores.ValidarFecha` (validadores.py:51),
  `Ciclos.TablaCiclos.CrearCiclo90d` (database.py:214) and
  `DatosDashboard.InicioDelCiclo` (sistema_90d/dashboard_data.py:27)
  inherit this: given such a text, the source goes on with the date and
  the model reports an error. The program itself stores only `isoformat`
  text, which is the dashed form.
- `DatosDashboard.InicioDelCiclo` reads the stored start with
  `datetime.fromisoformat` (sistema_90d/dashboard_data.py:27), which also
  accepts a time part ("2024-01-05T10:00"). The model refuses such a
  text, so the dashboard reports an error where the source counts from
  that instant. The stored value is always `date.today().isoformat()`
  (sistema_90d/dashboard_data.py:23, database.py:155).
- `Validadores.ValidarFecha`: `datetime.fromisoformat` also accepts a date
  with a time part; the model accepts only `YYYY-MM-DD`, and compares that
  date's midnight with now.
- `App.IntPython`: the PEP 515 underscores (`int("1_000")`) are not
  modelled and read as an error. The 4300-digit limit is the default of
  `sys.int_info.default_max_str_digits`; a program that changes it with
  `sys.set_int_max_str_digits` is not modelled. The surrounding whitespace `int()` skips
  is modelled as CPython skips it, not as `str.strip` does. The decimal digits `int()` reads,
  `isdecimal`, `isdigit` and `\d` follow the Unicode 15.0 tables (Python
  3.12); a later Unicode version with new digits is not modelled.
- `App.ProyectoId` inherits the underscore gap: an id written with
  underscores gives a 500 in the model where the source reads it.
- `App.GetValue`: the `getattr` branch for objects is not modelled. A
  non-dictionary ends the walk with None, so an attribute of a string or
  list (such as a method) is not returned.
- `App`: the `render_string`/`render_template` templating, the other
  handlers and `run_server` are not part of this model.
- `App.ActualizarProyectoHandler` does not look at the row count
  `actualizar_estado_proyecto` returns. The source ignores it too.
- `Guia`: `random.choice` is modelled as "some element of the list".
  `Mayusculas` covers ASCII, Latin-1, the dotless i, the long s and the
  Latin ligatures, not all of Unicode. `obtener_siguiente_accion` is a
  database query and is not part of this model.
- `DatosDashboard.ObtenerEstadoSistema`: the project counts, rituals and
  health check are SQL queries and are not modelled. Seeding
  `config_sistema` with today's date is also not modelled.
- `Gemini`: `_verificar_instalacion`, the subprocess timeout itself and
  the logging are not modelled.
- `IntegracionIa.AnalizarAutomaticamente`: the final
  `{'modo': 'manual', 'prompt': prompt}` at
  sistema_90d/integracion_ia.py:71 cannot be reached, because the provider
  is always one of the three. The prompt generator is an input.
- `AnalisisGemini.AnalisisSemanalAutomatico`: `tiempo_ejecucion` is a
  clock reading and is left out of the result. `GeneradorPrompts`,
  imported from `prompt_generator` at analisis_ia_gemini.py:2, is not
  defined there (that module holds only functions), so importing the
  module raises `ImportError` as shipped. The `get_db` import at
  analisis_ia_gemini.py:3 resolves, through the alias at database.py:37.
  The modelled flow assumes the one missing import fixed, and the prompt
  is an input.
- `AnalisisGemini.TablaDecisiones.GuardarDecisionesIa`: the constraints
  other than `accion_tomada` are the parameter `inserta`: the foreign key
  on `proyecto_id` and the NOT NULL on `tipo`. Only the `accion_tomada`
  constraints are modelled: NOT NULL and the CHECK. As written they refuse
  every row, so the weekly analysis reports `success=True` and stores no
  decision.
- `Backup`: `restaurar_backup` and `obtener_estadisticas` are file
  operations and are not part of this model.
- `Backup.SistemaBackup.LimpiarBackupsAntiguos` removes deleted files from
  the directory but keeps their `mtime` entries.
- `Backup.SistemaBackup.CrearBackup` takes the calendar reading `fecha`
  and the second count `ahora` as separate parameters. Nothing ties them
  to the same instant.
- `Backup.NombresCronologicos` covers four-digit years only. `%Y` writes
  a year below 1000 with fewer digits, and name order then differs from
  time order.
- Logging, `print` and `health.py` are not modelled. The prompt texts of
  `prompt_generator.py` and `generador_ideas.py` are not part of this
  model.

## Findings

| source | as written | input that shows it | evidently intended | confidence | as-written member | corrected member |
|---|---|---|---|---|---|---|
| app.py:156-158 | `isdigit()` guards `int()`, but `isdigit` also accepts superscript and other non-decimal digits, which `int()` rejects; the ValueError escapes `do_GET` and the client gets no response | GET `/proyecto/²` | a 404 for any segment `int()` cannot read (decimal, at most 4300 digits) | high, not executed | `App.SuperindiceSinRespuesta` | `App.RutearGetCorregido` |
| app.py:195-196 | the same `isdigit()`/`int()` mismatch in `do_POST` | POST `/proyecto/²/actualizar` | a 404 for a segment `int()` cannot read | high, not executed | `App.SuperindicePostSinRespuesta` | `App.RutearPostCorregido` |
| gemini_integration.py:175-176 | with no closing fence `find` returns -1, and the slice `[inicio:-1]` drops the answer's last character | an answer `` ```json{} `` | read to the end of the answer when no closing fence follows | high, not executed | `Gemini.FenceAbiertaSinParseo` | `Gemini.EjecutarConJsonCorregido` |
| analisis_ia_gemini.py:120-127 | the INSERT names `proyecto_id, tipo, justificacion, origen, fecha` but not `accion_tomada`, which is NOT NULL with no default (database.py:113); every insert raises, the handler only logs it, and the run still reports success | any analysis with at least one project that passes the structure check | each suggested decision is stored with an allowed `accion_tomada` (here 'pospuesta', awaiting the user's answer) | high, not executed | `AnalisisGemini.GuardadasAsiEscrito` | `AnalisisGemini.GuardadasCorregido` |
